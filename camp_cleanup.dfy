// Day 4, "Camp Cleanup": pairs of elves are assigned ranges of section IDs;
// count the pairs where one range contains the other (part one) or where the
// ranges overlap at all (part two).

module CampCleanup {
  import opened Wrappers
  import opened Parsing

  /** `WorkAssignment`: the inclusive range of section IDs `start..=end`
      (both `u32`). */
  datatype WorkAssignment = WorkAssignment(start: nat, end: nat)

  type Pair = (WorkAssignment, WorkAssignment)

  /** `ParseError`: a missing `-`, a bound that is not a `u32`, a missing `,`. */
  datatype ParseError = SplitFailed | NotInt | PairSplit

  // ---------------------------------------------------------------------------
  // The two predicates

  /** `fully_overlaps_either`: the first branch asks whether `a` contains `b`,
      the second whether `b` contains `a`. */
  predicate FullyOverlapsEither(a: WorkAssignment, b: WorkAssignment) {
    (a.start <= b.start && a.end >= b.end) || (b.start <= a.start && b.end >= a.end)
  }

  /** `overlaps_either`: the start of `b` lies in `a`, or the start of `a`
      lies in `b`. */
  predicate OverlapsEither(a: WorkAssignment, b: WorkAssignment) {
    (a.start <= b.start && a.end >= b.start) || (b.start <= a.start && b.end >= a.start)
  }

  /** Section `x` lies in the range. */
  predicate Covers(w: WorkAssignment, x: int) {
    w.start <= x <= w.end
  }

  /** Every section of `inner` lies in `outer`. */
  ghost predicate Contains(outer: WorkAssignment, inner: WorkAssignment) {
    forall x :: Covers(inner, x) ==> Covers(outer, x)
  }

  /** Some section lies in both ranges. */
  ghost predicate Shared(a: WorkAssignment, b: WorkAssignment) {
    exists x :: Covers(a, x) && Covers(b, x)
  }

  /** A range as it appears in the puzzle: its start is not after its end. */
  predicate Proper(w: WorkAssignment) {
    w.start <= w.end
  }

  /** For proper ranges, `fully_overlaps_either` says exactly that one range
      contains the other. */
  lemma FullyMeansContains(a: WorkAssignment, b: WorkAssignment)
    requires Proper(a) && Proper(b)
    ensures FullyOverlapsEither(a, b) <==> Contains(a, b) || Contains(b, a)
  {
    assert Covers(a, a.start) && Covers(a, a.end);
    assert Covers(b, b.start) && Covers(b, b.end);
  }

  /** For proper ranges, `overlaps_either` says exactly that the two ranges
      share a section. */
  lemma OverlapMeansShared(a: WorkAssignment, b: WorkAssignment)
    requires Proper(a) && Proper(b)
    ensures OverlapsEither(a, b) <==> Shared(a, b)
  {
    if OverlapsEither(a, b) {
      var x := if a.start <= b.start then b.start else a.start;
      assert Covers(a, x) && Covers(b, x);
    }
  }

  /** Both predicates are symmetric, as each unit test checks in both orders. */
  lemma Symmetric(a: WorkAssignment, b: WorkAssignment)
    ensures FullyOverlapsEither(a, b) == FullyOverlapsEither(b, a)
    ensures OverlapsEither(a, b) == OverlapsEither(b, a)
  {
  }

  /** For proper ranges, containment implies overlap. */
  lemma FullyImpliesOverlap(a: WorkAssignment, b: WorkAssignment)
    requires Proper(a) && Proper(b)
    ensures FullyOverlapsEither(a, b) ==> OverlapsEither(a, b)
  {
  }

  /** Without properness the implication fails: `0-1` contains the reversed
      range `3-0` by the first branch, yet neither start lies in the other
      range. */
  lemma ReversedRangeBreaksImplication()
    ensures FullyOverlapsEither(WorkAssignment(0, 1), WorkAssignment(3, 0))
    ensures !OverlapsEither(WorkAssignment(0, 1), WorkAssignment(3, 0))
  {
  }

  /** The unit tests of both predicates, in both argument orders; `5-7` and
      `7-9` touch at section 7 and so overlap. */
  lemma PredicateExamples()
    ensures !FullyOverlapsEither(WorkAssignment(1, 2), WorkAssignment(3, 4))
    ensures !FullyOverlapsEither(WorkAssignment(3, 4), WorkAssignment(1, 2))
    ensures FullyOverlapsEither(WorkAssignment(1, 3), WorkAssignment(3, 3))
    ensures FullyOverlapsEither(WorkAssignment(3, 3), WorkAssignment(1, 3))
    ensures FullyOverlapsEither(WorkAssignment(2, 8), WorkAssignment(3, 7))
    ensures FullyOverlapsEither(WorkAssignment(3, 7), WorkAssignment(2, 8))
    ensures OverlapsEither(WorkAssignment(5, 7), WorkAssignment(7, 9))
    ensures OverlapsEither(WorkAssignment(7, 9), WorkAssignment(5, 7))
    ensures !OverlapsEither(WorkAssignment(1, 2), WorkAssignment(3, 4))
    ensures !OverlapsEither(WorkAssignment(3, 4), WorkAssignment(1, 2))
    ensures OverlapsEither(WorkAssignment(2, 8), WorkAssignment(3, 7))
    ensures OverlapsEither(WorkAssignment(3, 7), WorkAssignment(2, 8))
  {
  }

  // ---------------------------------------------------------------------------
  // Parsing

  /** `WorkAssignment::from_str`: split at the first `-`, then read both
      halves with `str::parse::<u32>`. */
  function ParseAssignment(s: string): (r: Result<WorkAssignment, ParseError>)
    ensures '-' !in s <==> r == Err(SplitFailed)
    ensures r.Ok? ==> r.value.start <= U32_MAX && r.value.end <= U32_MAX
  {
    match SplitOnce(s, '-')
    case None => Err(SplitFailed)
    case Some((before, after)) =>
      match (ParseU32Str(before), ParseU32Str(after))
      case (Some(start), Some(end)) => Ok(WorkAssignment(start, end))
      case _ => Err(NotInt)
  }

  /** `parse_line_as_pair`: split at the first `,` and read both ranges; the
      first error met is the answer. */
  function ParseLineAsPair(line: string): (r: Result<Pair, ParseError>)
    ensures ',' !in line <==> r == Err(PairSplit)
  {
    match SplitOnce(line, ',')
    case None => Err(PairSplit)
    case Some((fst, snd)) =>
      var first :- ParseAssignment(fst);
      var second :- ParseAssignment(snd);
      Ok((first, second))
  }

  /** How a range is written in the puzzle input. */
  function FormatAssignment(w: WorkAssignment): string {
    NatToString(w.start) + "-" + NatToString(w.end)
  }

  function FormatPair(p: Pair): string {
    FormatAssignment(p.0) + "," + FormatAssignment(p.1)
  }

  predicate Fits(p: Pair) {
    p.0.start <= U32_MAX && p.0.end <= U32_MAX && p.1.start <= U32_MAX && p.1.end <= U32_MAX
  }

  lemma NoSeparatorInDigits(s: string, c: char)
    requires AllDigits(s) && !IsDigit(c)
    ensures c !in s
  {
  }

  lemma AssignmentRoundTrip(w: WorkAssignment)
    requires w.start <= U32_MAX && w.end <= U32_MAX
    ensures ParseAssignment(FormatAssignment(w)) == Ok(w)
    ensures ',' !in FormatAssignment(w) && PlainLine(FormatAssignment(w))
  {
    var start, end := NatToString(w.start), NatToString(w.end);
    NoSeparatorInDigits(start, '-');
    NoSeparatorInDigits(start, ',');
    NoSeparatorInDigits(end, ',');
    NoSeparatorInDigits(start, '\n');
    NoSeparatorInDigits(end, '\n');
    assert FormatAssignment(w) == start + (['-'] + end);
    IndexOfAfterClean(start, '-', end);
    ParseU32StrRoundTrip(w.start);
    ParseU32StrRoundTrip(w.end);
  }

  /** Reading a formatted line gives the pair back. */
  lemma PairRoundTrip(p: Pair)
    requires Fits(p)
    ensures ParseLineAsPair(FormatPair(p)) == Ok(p)
    ensures PlainLine(FormatPair(p))
  {
    var first, second := FormatAssignment(p.0), FormatAssignment(p.1);
    AssignmentRoundTrip(p.0);
    AssignmentRoundTrip(p.1);
    assert FormatPair(p) == first + ([','] + second);
    IndexOfAfterClean(first, ',', second);
  }

  // ---------------------------------------------------------------------------
  // The two parts

  /** Every line through `parse_line_as_pair`; the first line that does not
      parse stands for the `expect` panic. */
  function ParseAll(lines: seq<string>): (r: Result<seq<Pair>, ParseError>)
    ensures r.Ok? ==> |r.value| == |lines|
    ensures r.Ok? ==> forall i :: 0 <= i < |lines| ==> ParseLineAsPair(lines[i]) == Ok(r.value[i])
    ensures r.Err? <==> exists i :: 0 <= i < |lines| && ParseLineAsPair(lines[i]).Err?
  {
    if lines == [] then Ok([])
    else
      var first :- ParseLineAsPair(lines[0]);
      var rest :- ParseAll(lines[1..]);
      Ok([first] + rest)
  }

  /** `filter(..).count()`. */
  function CountIf(pairs: seq<Pair>, keep: Pair -> bool): (n: nat)
    ensures n <= |pairs|
  {
    if pairs == [] then 0 else (if keep(pairs[0]) then 1 else 0) + CountIf(pairs[1..], keep)
  }

  /** The positions of the kept pairs. */
  ghost function KeptAt(pairs: seq<Pair>, keep: Pair -> bool): set<nat> {
    set i: nat | i < |pairs| && keep(pairs[i])
  }

  lemma {:induction false} CountSnoc(pairs: seq<Pair>, p: Pair, keep: Pair -> bool)
    ensures CountIf(pairs + [p], keep) == CountIf(pairs, keep) + (if keep(p) then 1 else 0)
    decreases |pairs|
  {
    if pairs != [] {
      assert (pairs + [p])[1..] == pairs[1..] + [p];
      CountSnoc(pairs[1..], p, keep);
    } else {
      assert ([] + [p])[1..] == [];
    }
  }

  /** The count is the number of positions whose pair is kept. */
  lemma {:induction false} CountIsKept(pairs: seq<Pair>, keep: Pair -> bool)
    ensures CountIf(pairs, keep) == |KeptAt(pairs, keep)|
    decreases |pairs|
  {
    if pairs != [] {
      var init, last := pairs[..|pairs| - 1], pairs[|pairs| - 1];
      assert pairs == init + [last];
      CountIsKept(init, keep);
      CountSnoc(init, last, keep);
      var n := |init|;
      assert n !in KeptAt(init, keep);
      assert KeptAt(pairs, keep) == KeptAt(init, keep) + (if keep(last) then {n} else {});
    }
  }

  /** Keeping more never counts fewer. */
  lemma {:induction false} CountMonotone(pairs: seq<Pair>, keep: Pair -> bool, wider: Pair -> bool)
    requires forall i :: 0 <= i < |pairs| && keep(pairs[i]) ==> wider(pairs[i])
    ensures CountIf(pairs, keep) <= CountIf(pairs, wider)
    decreases |pairs|
  {
    if pairs != [] {
      CountMonotone(pairs[1..], keep, wider);
    }
  }

  predicate Fully(p: Pair) { FullyOverlapsEither(p.0, p.1) }
  predicate Overlaps(p: Pair) { OverlapsEither(p.0, p.1) }

  /** `part_one`: the number of lines whose ranges contain one another. */
  function PartOne(input: string): Result<nat, ParseError>
  {
    var pairs :- ParseAll(Lines(input));
    Ok(CountIf(pairs, Fully))
  }

  /** `part_two`: the number of lines whose ranges overlap. */
  function PartTwo(input: string): Result<nat, ParseError>
  {
    var pairs :- ParseAll(Lines(input));
    Ok(CountIf(pairs, Overlaps))
  }

  /** When every range read is proper, part two is at least part one. */
  lemma PartTwoAtLeastPartOne(input: string)
    requires ParseAll(Lines(input)).Ok?
    requires forall p :: p in ParseAll(Lines(input)).value ==> Proper(p.0) && Proper(p.1)
    ensures PartOne(input).value <= PartTwo(input).value
  {
    var pairs := ParseAll(Lines(input)).value;
    forall i | 0 <= i < |pairs| && Fully(pairs[i])
      ensures Overlaps(pairs[i])
    {
      assert pairs[i] in pairs;
      FullyImpliesOverlap(pairs[i].0, pairs[i].1);
    }
    CountMonotone(pairs, Fully, Overlaps);
  }

  // ---------------------------------------------------------------------------
  // Whole inputs

  /** The puzzle input listing the given pairs, one per line. */
  function InputText(pairs: seq<Pair>): string {
    Unlines(FormatLines(pairs))
  }

  function FormatLines(pairs: seq<Pair>): (lines: seq<string>)
    ensures |lines| == |pairs|
    ensures forall i :: 0 <= i < |pairs| ==> lines[i] == FormatPair(pairs[i])
  {
    if pairs == [] then [] else [FormatPair(pairs[0])] + FormatLines(pairs[1..])
  }

  lemma ReadBack(pairs: seq<Pair>)
    requires forall p :: p in pairs ==> Fits(p)
    ensures Lines(InputText(pairs)) == FormatLines(pairs)
    ensures ParseAll(FormatLines(pairs)) == Ok(pairs)
  {
    var lines := FormatLines(pairs);
    forall i | 0 <= i < |lines|
      ensures PlainLine(lines[i]) && ParseLineAsPair(lines[i]) == Ok(pairs[i])
    {
      assert pairs[i] in pairs;
      PairRoundTrip(pairs[i]);
    }
    LinesUnlines(lines);
    ParseAllOk(lines, pairs);
  }

  lemma ParseAllOk(lines: seq<string>, pairs: seq<Pair>)
    requires |lines| == |pairs|
    requires forall i :: 0 <= i < |lines| ==> ParseLineAsPair(lines[i]) == Ok(pairs[i])
    ensures ParseAll(lines) == Ok(pairs)
  {
    var r := ParseAll(lines);
    assert r.Ok? by {
      forall i | 0 <= i < |lines| ensures ParseLineAsPair(lines[i]).Ok? {
        assert ParseLineAsPair(lines[i]) == Ok(pairs[i]);
      }
    }
    assert forall i :: 0 <= i < |pairs| ==> r.value[i] == pairs[i];
    assert r.value == pairs;
  }

  /** Both parts on an input made of well-formed lines count exactly the
      kept pairs. */
  lemma PartsOnText(pairs: seq<Pair>)
    requires forall p :: p in pairs ==> Fits(p)
    ensures PartOne(InputText(pairs)) == Ok(CountIf(pairs, Fully))
    ensures PartTwo(InputText(pairs)) == Ok(CountIf(pairs, Overlaps))
  {
    ReadBack(pairs);
  }

  /** The puzzle's example: `2-4,6-8`, `2-3,4-5`, `5-7,7-9`, `2-8,3-7`,
      `6-6,4-6`, `2-6,4-8`. */
  function ExamplePairs(): seq<Pair> {
    [ (WorkAssignment(2, 4), WorkAssignment(6, 8)),
      (WorkAssignment(2, 3), WorkAssignment(4, 5)),
      (WorkAssignment(5, 7), WorkAssignment(7, 9)),
      (WorkAssignment(2, 8), WorkAssignment(3, 7)),
      (WorkAssignment(6, 6), WorkAssignment(4, 6)),
      (WorkAssignment(2, 6), WorkAssignment(4, 8)) ]
  }

  lemma ExampleCounts()
    ensures CountIf(ExamplePairs(), Fully) == 2
    ensures CountIf(ExamplePairs(), Overlaps) == 4
  {
    var pairs := ExamplePairs();
    assert CountIf(pairs[4..], Fully) == 1 && CountIf(pairs[4..], Overlaps) == 2;
    assert CountIf(pairs[2..], Fully) == 2 && CountIf(pairs[2..], Overlaps) == 4;
  }

  /** `test_part_one` and `test_part_two`: 2 and 4. */
  lemma Example()
    ensures PartOne(InputText(ExamplePairs())) == Ok(2)
    ensures PartTwo(InputText(ExamplePairs())) == Ok(4)
  {
    ExampleCounts();
    PartsOnText(ExamplePairs());
  }
}
