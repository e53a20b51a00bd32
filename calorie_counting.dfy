// Day 1: Calorie Counting.
//
// The input is split on '\n' and every line is read with
// `str::parse::<u32>()`. A line that reads as a number adds to the running
// sum; any other line (a blank line in a well-formed input) closes the current
// group: its sum is recorded and the running sum starts again from 0. Part one
// keeps the largest recorded sum; part two collects the recorded sums, sorts
// them and adds up the last three (the three largest, or all of them when
// there are fewer).

module CalorieCounting {
  import opened Wrappers
  import opened Parsing

  // ---------------------------------------------------------------------------
  // The groups

  predicate Numeric(line: string) { ParseU32Str(line).Some? }

  predicate AllNumeric(lines: seq<string>) {
    forall i :: 0 <= i < |lines| ==> Numeric(lines[i])
  }

  /** The sums recorded while reading `lines`, when the running sum is `sum`
      at the start: each non-numeric line records the running sum and resets
      it. Whatever is still running at the end is not recorded. */
  function ClosedSums(lines: seq<string>, sum: nat): seq<nat> {
    if lines == [] then []
    else match ParseU32Str(lines[0])
      case Some(v) => ClosedSums(lines[1..], sum + v)
      case None => [sum] + ClosedSums(lines[1..], 0)
  }

  /** One step of `ClosedSums`, at line `k`. */
  lemma ClosedSumsAt(lines: seq<string>, k: nat, sum: nat)
    requires k < |lines|
    ensures ParseU32Str(lines[k]).Some? ==>
      ClosedSums(lines[k..], sum) == ClosedSums(lines[k + 1..], sum + ParseU32Str(lines[k]).value)
    ensures ParseU32Str(lines[k]).None? ==>
      ClosedSums(lines[k..], sum) == [sum] + ClosedSums(lines[k + 1..], 0)
  {
    assert lines[k..][0] == lines[k] && lines[k..][1..] == lines[k + 1..];
  }

  /** The group sums of an input. */
  function Groups(input: string): seq<nat> {
    ClosedSums(Split(input, '\n'), 0)
  }

  /** The value of a run of numeric lines. */
  function Total(lines: seq<string>): nat
    requires AllNumeric(lines)
  {
    if lines == [] then 0 else ParseU32Str(lines[0]).value + Total(lines[1..])
  }

  function NonNumericCount(lines: seq<string>): nat {
    if lines == [] then 0 else (if Numeric(lines[0]) then 0 else 1) + NonNumericCount(lines[1..])
  }

  /** One group is recorded per non-numeric line. */
  lemma {:induction false} OneGroupPerSeparator(lines: seq<string>, sum: nat)
    ensures |ClosedSums(lines, sum)| == NonNumericCount(lines)
    decreases |lines|
  {
    if lines != [] {
      match ParseU32Str(lines[0])
      case Some(v) => OneGroupPerSeparator(lines[1..], sum + v);
      case None => OneGroupPerSeparator(lines[1..], 0);
    }
  }

  /** A run of numbers closed by a non-numeric line records one group: the
      running sum plus the run's total. */
  lemma {:induction false} GroupOfNumbers(nums: seq<string>, separator: string, sum: nat)
    requires AllNumeric(nums) && !Numeric(separator)
    ensures ClosedSums(nums + [separator], sum) == [sum + Total(nums)]
    decreases |nums|
  {
    if nums == [] {
      assert nums + [separator] == [separator];
      assert [sum] + [] == [sum];
    } else {
      assert (nums + [separator])[1..] == nums[1..] + [separator];
      assert AllNumeric(nums[1..]) by {
        forall i | 0 <= i < |nums[1..]| ensures Numeric(nums[1..][i]) {
          assert nums[1..][i] == nums[i + 1];
        }
      }
      GroupOfNumbers(nums[1..], separator, sum + ParseU32Str(nums[0]).value);
    }
  }

  /** After a non-numeric line the reading starts afresh: the groups of the
      rest follow the groups so far. */
  lemma {:induction false} ClosedSumsConcat(a: seq<string>, b: seq<string>, sum: nat)
    requires a != [] && !Numeric(a[|a| - 1])
    ensures ClosedSums(a + b, sum) == ClosedSums(a, sum) + ClosedSums(b, 0)
    decreases |a|
  {
    assert (a + b)[1..] == a[1..] + b;
    if |a| == 1 {
      assert a[1..] == [];
      assert a[1..] + b == b;
      assert ClosedSums(a, sum) == [sum];
    } else {
      match ParseU32Str(a[0])
      case Some(v) => ClosedSumsConcat(a[1..], b, sum + v);
      case None => ClosedSumsConcat(a[1..], b, 0);
    }
  }

  /** Numeric lines at the end of the input never close a group, so their
      sum is never recorded. */
  lemma {:induction false} UnclosedGroupDropped(a: seq<string>, nums: seq<string>, sum: nat)
    requires AllNumeric(nums)
    ensures ClosedSums(a + nums, sum) == ClosedSums(a, sum)
    decreases |a|
  {
    if a == [] {
      assert a + nums == nums;
      NumbersRecordNothing(nums, sum);
    } else {
      assert (a + nums)[1..] == a[1..] + nums;
      match ParseU32Str(a[0])
      case Some(v) => UnclosedGroupDropped(a[1..], nums, sum + v);
      case None => UnclosedGroupDropped(a[1..], nums, 0);
    }
  }

  lemma {:induction false} NumbersRecordNothing(nums: seq<string>, sum: nat)
    requires AllNumeric(nums)
    ensures ClosedSums(nums, sum) == []
    decreases |nums|
  {
    if nums != [] {
      assert Numeric(nums[0]);
      assert AllNumeric(nums[1..]) by {
        forall i | 0 <= i < |nums[1..]| ensures Numeric(nums[1..][i]) {
          assert nums[1..][i] == nums[i + 1];
        }
      }
      NumbersRecordNothing(nums[1..], sum + ParseU32Str(nums[0]).value);
    }
  }

  // ---------------------------------------------------------------------------
  // Part one

  function Max(a: nat, b: nat): nat { if a < b then b else a }

  /** The largest of `xs`, or 0 when there is none. */
  function MaxOr0(xs: seq<nat>): nat {
    if xs == [] then 0 else Max(MaxOr0(xs[..|xs| - 1]), xs[|xs| - 1])
  }

  lemma {:induction false} MaxOr0IsMaximum(xs: seq<nat>)
    ensures forall i :: 0 <= i < |xs| ==> xs[i] <= MaxOr0(xs)
    ensures xs == [] ==> MaxOr0(xs) == 0
    ensures xs != [] ==> MaxOr0(xs) in xs
    decreases |xs|
  {
    if xs != [] {
      var init := xs[..|xs| - 1];
      MaxOr0IsMaximum(init);
      forall i | 0 <= i < |xs| ensures xs[i] <= MaxOr0(xs) {
        if i < |xs| - 1 {
          assert xs[i] == init[i];
        }
      }
      if MaxOr0(xs) != xs[|xs| - 1] {
        var j :| 0 <= j < |init| && init[j] == MaxOr0(init);
        assert xs[j] == MaxOr0(xs);
      }
    }
  }

  /** `part_one`: the running maximum of the recorded sums, starting from 0. */
  method PartOne(input: string) returns (r: nat)
    ensures r == MaxOr0(Groups(input))
  {
    var lines := Split(input, '\n');
    var max := 0;
    var sum := 0;
    ghost var closed: seq<nat> := [];
    for k := 0 to |lines|
      invariant ClosedSums(lines, 0) == closed + ClosedSums(lines[k..], sum)
      invariant max == MaxOr0(closed)
    {
      ClosedSumsAt(lines, k, sum);
      match ParseU32Str(lines[k]) {
        case Some(v) =>
          sum := sum + v;
        case None =>
          if sum > max {
            max := sum;
          }
          assert (closed + [sum])[..|closed|] == closed;
          assert closed + ([sum] + ClosedSums(lines[k + 1..], 0))
              == (closed + [sum]) + ClosedSums(lines[k + 1..], 0);
          closed := closed + [sum];
          sum := 0;
      }
    }
    assert ClosedSums(lines[|lines|..], sum) == [];
    assert closed + [] == closed;
    return max;
  }

  // ---------------------------------------------------------------------------
  // Sorting (`sort_unstable`; for numbers a stable and an unstable sort agree)

  predicate Ascending(s: seq<nat>) {
    forall i, j :: 0 <= i < j < |s| ==> s[i] <= s[j]
  }

  function Insert(x: nat, s: seq<nat>): seq<nat> {
    if s == [] || x <= s[0] then [x] + s else [s[0]] + Insert(x, s[1..])
  }

  function SortAscending(xs: seq<nat>): seq<nat> {
    if xs == [] then [] else Insert(xs[0], SortAscending(xs[1..]))
  }

  lemma {:induction false} InsertAscending(x: nat, s: seq<nat>)
    requires Ascending(s)
    ensures Ascending(Insert(x, s))
    ensures |Insert(x, s)| == |s| + 1
    ensures Insert(x, s)[0] == (if s == [] || x <= s[0] then x else s[0])
    decreases |s|
  {
    if s != [] && x > s[0] {
      InsertAscending(x, s[1..]);
      var t := Insert(x, s[1..]);
      assert s[0] <= t[0];
      assert Insert(x, s) == [s[0]] + t;
    }
  }

  lemma {:induction false} InsertMultiset(x: nat, s: seq<nat>)
    ensures multiset(Insert(x, s)) == multiset{x} + multiset(s)
    decreases |s|
  {
    if s != [] && x > s[0] {
      InsertMultiset(x, s[1..]);
      assert s == [s[0]] + s[1..];
    }
  }

  /** The sort puts the same sums in ascending order. */
  lemma {:induction false} SortAscendingSorts(xs: seq<nat>)
    ensures Ascending(SortAscending(xs))
    ensures multiset(SortAscending(xs)) == multiset(xs)
    ensures |SortAscending(xs)| == |xs|
    decreases |xs|
  {
    if xs != [] {
      SortAscendingSorts(xs[1..]);
      InsertAscending(xs[0], SortAscending(xs[1..]));
      InsertMultiset(xs[0], SortAscending(xs[1..]));
      assert xs == [xs[0]] + xs[1..];
    }
  }

  // ---------------------------------------------------------------------------
  // Part two

  function Sum(xs: seq<nat>): nat {
    if xs == [] then 0 else xs[0] + Sum(xs[1..])
  }

  function Min(a: nat, b: nat): nat { if a < b then a else b }

  /** `iter().rev().take(3).sum()`: the sum of the last three elements, or
      of all of them when there are fewer. */
  function LastThreeSum(s: seq<nat>): nat {
    Sum(s[|s| - Min(3, |s|)..])
  }

  /** `part_two`: push every recorded sum, sort, add up the last three. */
  method PartTwo(input: string) returns (r: nat)
    ensures r == LastThreeSum(SortAscending(Groups(input)))
  {
    var lines := Split(input, '\n');
    var vec := PushGroups(lines);
    vec := SortAscending(vec);
    r := SumLastThree(vec);
  }

  /** The loop of `part_two`: every recorded sum is pushed, in order. */
  method PushGroups(lines: seq<string>) returns (vec: seq<nat>)
    ensures vec == ClosedSums(lines, 0)
  {
    var sum := 0;
    vec := [];
    for k := 0 to |lines|
      invariant ClosedSums(lines, 0) == vec + ClosedSums(lines[k..], sum)
    {
      ClosedSumsAt(lines, k, sum);
      match ParseU32Str(lines[k]) {
        case Some(v) =>
          sum := sum + v;
        case None =>
          assert vec + ([sum] + ClosedSums(lines[k + 1..], 0))
              == (vec + [sum]) + ClosedSums(lines[k + 1..], 0);
          vec := vec + [sum];
          sum := 0;
      }
    }
    assert ClosedSums(lines[|lines|..], sum) == [];
    assert vec + [] == vec;
  }

  /** `iter().rev().take(3).sum()`, walking back from the end. */
  method SumLastThree(vec: seq<nat>) returns (total: nat)
    ensures total == LastThreeSum(vec)
  {
    total := 0;
    var j := |vec|;
    while j > 0 && |vec| - j < 3
      invariant 0 <= j <= |vec| && |vec| - j <= 3
      invariant total == Sum(vec[j..])
    {
      j := j - 1;
      assert vec[j..][1..] == vec[j + 1..];
      total := total + vec[j];
    }
    assert vec[j..] == vec[|vec| - Min(3, |vec|)..];
  }

  lemma {:induction false} SumInsert(x: nat, s: seq<nat>)
    ensures Sum(Insert(x, s)) == x + Sum(s)
    decreases |s|
  {
    if s != [] && x > s[0] {
      SumInsert(x, s[1..]);
    }
  }

  lemma {:induction false} SumSorted(xs: seq<nat>)
    ensures Sum(SortAscending(xs)) == Sum(xs)
    decreases |xs|
  {
    if xs != [] {
      SumSorted(xs[1..]);
      SumInsert(xs[0], SortAscending(xs[1..]));
    }
  }

  /** With three groups or fewer, part two adds up all of them. */
  lemma FewGroupsAllCounted(xs: seq<nat>)
    requires |xs| <= 3
    ensures LastThreeSum(SortAscending(xs)) == Sum(xs)
  {
    SortAscendingSorts(xs);
    SumSorted(xs);
    var s := SortAscending(xs);
    assert s[|s| - Min(3, |s|)..] == s;
  }

  /** The three summed values are the largest: every value left out is at
      most every value summed. */
  lemma LastThreeAreLargest(xs: seq<nat>)
    ensures var s := SortAscending(xs);
      multiset(s) == multiset(xs)
      && forall i, j :: 0 <= i < |s| - Min(3, |s|) <= j < |s| ==> s[i] <= s[j]
  {
    SortAscendingSorts(xs);
  }

  lemma {:induction false} SumAtLeastLast(s: seq<nat>)
    requires s != []
    ensures Sum(s) >= s[|s| - 1]
    decreases |s|
  {
    if |s| > 1 {
      SumAtLeastLast(s[1..]);
    }
  }

  /** The largest group is among the three summed, so part two is at least
      part one. */
  lemma PartTwoAtLeastPartOne(xs: seq<nat>)
    ensures LastThreeSum(SortAscending(xs)) >= MaxOr0(xs)
  {
    if xs != [] {
      SortAscendingSorts(xs);
      MaxOr0IsMaximum(xs);
      var s := SortAscending(xs);
      assert MaxOr0(xs) in multiset(s);
      var i :| 0 <= i < |s| && s[i] == MaxOr0(xs);
      var top := s[|s| - Min(3, |s|)..];
      SumAtLeastLast(top);
      assert top[|top| - 1] == s[|s| - 1];
    }
  }

  /** No line of a written group holds a newline. */
  lemma {:induction false} GroupLinesPlain(gs: seq<seq<nat>>)
    ensures forall i :: 0 <= i < |GroupLines(gs)| ==> '\n' !in GroupLines(gs)[i]
    decreases |gs|
  {
    if gs != [] {
      NumberLinesPlain(gs[0]);
      GroupLinesPlain(gs[1..]);
      var a, b := NumberLines(gs[0]) + [""], GroupLines(gs[1..]);
      assert GroupLines(gs) == a + b;
      forall i | 0 <= i < |a + b| ensures '\n' !in (a + b)[i] {
        if i >= |a| {
          assert (a + b)[i] == b[i - |a|];
        }
      }
    }
  }

  lemma {:induction false} NumberLinesPlain(ns: seq<nat>)
    ensures forall i :: 0 <= i < |NumberLines(ns)| ==> '\n' !in NumberLines(ns)[i]
    decreases |ns|
  {
    if ns != [] {
      NumberLinesPlain(ns[1..]);
    }
  }

  /** The text of an input holding the groups `gs`. */
  function InputText(gs: seq<seq<nat>>): string
    requires gs != []
  {
    Join(GroupLines(gs), '\n')
  }

  /** Reading the text of some groups gives back their sums. */
  lemma ReadBack(gs: seq<seq<nat>>)
    requires gs != [] && forall i :: 0 <= i < |gs| ==> FitsU32(gs[i])
    ensures Groups(InputText(gs)) == GroupSums(gs)
  {
    GroupLinesPlain(gs);
    SplitJoin(GroupLines(gs), '\n');
    GroupLinesRoundTrip(gs);
  }

  // ---------------------------------------------------------------------------
  // Writing groups out and reading them back

  /** One number per line, in decimal. */
  function NumberLines(ns: seq<nat>): seq<string> {
    if ns == [] then [] else [NatToString(ns[0])] + NumberLines(ns[1..])
  }

  /** The lines of an input holding the groups `gs`, each closed by a blank
      line (so the text ends with a newline). */
  function GroupLines(gs: seq<seq<nat>>): seq<string> {
    if gs == [] then [] else NumberLines(gs[0]) + [""] + GroupLines(gs[1..])
  }

  function GroupSums(gs: seq<seq<nat>>): seq<nat> {
    if gs == [] then [] else [Sum(gs[0])] + GroupSums(gs[1..])
  }

  predicate FitsU32(ns: seq<nat>) {
    forall i :: 0 <= i < |ns| ==> ns[i] <= U32_MAX
  }

  lemma {:induction false} NumberLinesGroup(ns: seq<nat>, sum: nat)
    requires FitsU32(ns)
    ensures ClosedSums(NumberLines(ns) + [""], sum) == [sum + Sum(ns)]
    decreases |ns|
  {
    if ns == [] {
      assert NumberLines(ns) + [""] == [""];
      assert [sum] + [] == [sum];
    } else {
      assert FitsU32(ns[1..]) by {
        forall i | 0 <= i < |ns[1..]| ensures ns[1..][i] <= U32_MAX {
          assert ns[1..][i] == ns[i + 1];
        }
      }
      var line := NatToString(ns[0]);
      var tail := NumberLines(ns[1..]) + [""];
      assert NumberLines(ns) + [""] == [line] + tail;
      ParseU32StrRoundTrip(ns[0]);
      NumericLineAdds(line, tail, sum, ns[0]);
      NumberLinesGroup(ns[1..], sum + ns[0]);
    }
  }

  /** A numeric line adds its value to the running sum. */
  lemma NumericLineAdds(line: string, lines: seq<string>, sum: nat, v: nat)
    requires ParseU32Str(line) == Some(v)
    ensures ClosedSums([line] + lines, sum) == ClosedSums(lines, sum + v)
  {
    assert ([line] + lines)[1..] == lines;
  }

  /** Reading back the lines of a list of groups gives each group's sum, in
      order. */
  lemma {:induction false} GroupLinesRoundTrip(gs: seq<seq<nat>>)
    requires forall i :: 0 <= i < |gs| ==> FitsU32(gs[i])
    ensures ClosedSums(GroupLines(gs), 0) == GroupSums(gs)
    decreases |gs|
  {
    if gs != [] {
      var first := NumberLines(gs[0]) + [""];
      assert GroupLines(gs) == first + GroupLines(gs[1..]);
      assert first[|first| - 1] == "" && ParseU32Str("") == None;
      ClosedSumsConcat(first, GroupLines(gs[1..]), 0);
      NumberLinesGroup(gs[0], 0);
      assert forall i :: 0 <= i < |gs[1..]| ==> FitsU32(gs[1..][i]) by {
        forall i | 0 <= i < |gs[1..]| ensures FitsU32(gs[1..][i]) {
          assert gs[1..][i] == gs[i + 1];
        }
      }
      GroupLinesRoundTrip(gs[1..]);
      assert GroupSums(gs) == [Sum(gs[0])] + GroupSums(gs[1..]);
    }
  }

  // ---------------------------------------------------------------------------
  // The example from the puzzle text

  function ExampleGroups(): seq<seq<nat>> {
    [[1000, 2000, 3000], [4000], [5000, 6000], [7000, 8000, 9000], [10000]]
  }

  /** The example input gives 24000 for part one and 45000 for part two. */
  lemma ExampleAnswers()
    ensures MaxOr0(Groups(InputText(ExampleGroups()))) == 24000
    ensures LastThreeSum(SortAscending(Groups(InputText(ExampleGroups())))) == 45000
  {
    ReadBack(ExampleGroups());
    ExampleGroupSums();
    ExampleMax();
    ExampleLastThree();
  }

  lemma ExampleGroupSums()
    ensures GroupSums(ExampleGroups()) == [6000, 4000, 11000, 24000, 10000]
  {
    var gs := ExampleGroups();
    assert Sum([3000]) == 3000;
    assert Sum([2000, 3000]) == 5000 by { assert [2000, 3000][1..] == [3000]; }
    assert Sum([1000, 2000, 3000]) == 6000 by { assert [1000, 2000, 3000][1..] == [2000, 3000]; }
    assert Sum([6000]) == 6000;
    assert Sum([5000, 6000]) == 11000 by { assert [5000, 6000][1..] == [6000]; }
    assert Sum([9000]) == 9000;
    assert Sum([8000, 9000]) == 17000 by { assert [8000, 9000][1..] == [9000]; }
    assert Sum([7000, 8000, 9000]) == 24000 by { assert [7000, 8000, 9000][1..] == [8000, 9000]; }
    assert GroupSums(gs[4..]) == [10000];
    assert GroupSums(gs[3..]) == [24000, 10000];
    assert GroupSums(gs[2..]) == [11000, 24000, 10000];
    assert GroupSums(gs[1..]) == [4000, 11000, 24000, 10000];
  }

  lemma ExampleMax()
    ensures MaxOr0([6000, 4000, 11000, 24000, 10000]) == 24000
  {
    assert MaxOr0([6000]) == 6000;
    assert MaxOr0([6000, 4000]) == 6000 by { assert [6000, 4000][..1] == [6000]; }
    assert MaxOr0([6000, 4000, 11000]) == 11000 by { assert [6000, 4000, 11000][..2] == [6000, 4000]; }
    assert MaxOr0([6000, 4000, 11000, 24000]) == 24000 by {
      assert [6000, 4000, 11000, 24000][..3] == [6000, 4000, 11000];
    }
    assert [6000, 4000, 11000, 24000, 10000][..4] == [6000, 4000, 11000, 24000];
  }

  lemma ExampleLastThree()
    ensures LastThreeSum(SortAscending([6000, 4000, 11000, 24000, 10000])) == 45000
  {
    assert SortAscending([10000]) == [10000];
    assert Insert(24000, [10000]) == [10000, 24000];
    assert SortAscending([24000, 10000]) == [10000, 24000] by {
      assert [24000, 10000][1..] == [10000];
    }
    assert Insert(11000, [10000, 24000]) == [10000, 11000, 24000] by {
      assert [10000, 24000][1..] == [24000];
    }
    assert SortAscending([11000, 24000, 10000]) == [10000, 11000, 24000] by {
      assert [11000, 24000, 10000][1..] == [24000, 10000];
    }
    assert SortAscending([4000, 11000, 24000, 10000]) == [4000, 10000, 11000, 24000] by {
      assert [4000, 11000, 24000, 10000][1..] == [11000, 24000, 10000];
    }
    assert Insert(6000, [4000, 10000, 11000, 24000]) == [4000, 6000, 10000, 11000, 24000] by {
      assert [4000, 10000, 11000, 24000][1..] == [10000, 11000, 24000];
    }
    var xs := [6000, 4000, 11000, 24000, 10000];
    assert xs[1..] == [4000, 11000, 24000, 10000];
    var s := [4000, 6000, 10000, 11000, 24000];
    assert SortAscending(xs) == s;
    assert s[2..] == [10000, 11000, 24000];
    assert Sum([24000]) == 24000;
    assert Sum([11000, 24000]) == 35000 by { assert [11000, 24000][1..] == [24000]; }
    assert Sum([10000, 11000, 24000]) == 45000 by { assert [10000, 11000, 24000][1..] == [11000, 24000]; }
  }
}
