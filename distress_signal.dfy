/** Distress signal (src/bin/13.rs): packets are integers or bracketed lists
    of packets; a pair is in the right order when the first decided
    comparison, element by element, says so. Part one sums the 1-based
    indices of the pairs that are in the right order or undecided. */
module DistressSignal {
  import opened Wrappers
  import opened Parsing

  datatype Packet = Integer(n: nat) | List(items: seq<Packet>)

  /** The number of packet nodes: a measure that shrinks on every comparison step. */
  function Size(p: Packet): (r: nat)
    ensures r >= 1
    decreases p, 0
  {
    match p
    case Integer(_) => 1
    case List(ps) => 1 + SizeFrom(ps, 0)
  }

  function SizeFrom(ps: seq<Packet>, i: nat): nat
    decreases ps, |ps| - i
  {
    if i >= |ps| then 0 else Size(ps[i]) + SizeFrom(ps, i + 1)
  }

  // ---------------------------------------------------------------------------
  // Ordering

  /** `is_in_right_order`: `Some(true)` in the right order, `Some(false)` in
      the wrong order, `None` undecided. */
  function InRightOrder(left: Packet, right: Packet): Option<bool>
    decreases Size(left) + Size(right), 0
  {
    match (left, right)
    case (Integer(l), Integer(r)) => if l == r then None else Some(l < r)
    case (List(ls), List(rs)) => ListsInRightOrder(ls, rs, 0)
    case (Integer(_), List(rs)) =>
      assert SizeFrom([left], 0) == Size(left) by { assert SizeFrom([left], 1) == 0; }
      ListsInRightOrder([left], rs, 0)
    case (List(ls), Integer(_)) =>
      assert SizeFrom([right], 0) == Size(right) by { assert SizeFrom([right], 1) == 0; }
      ListsInRightOrder(ls, [right], 0)
  }

  /** `are_lists_in_right_order`, from index `i` on: the first element pair
      that decides, else the shorter list comes first. */
  function ListsInRightOrder(ls: seq<Packet>, rs: seq<Packet>, i: nat): Option<bool>
    decreases SizeFrom(ls, i) + SizeFrom(rs, i), 1
  {
    if i >= |ls| then
      if |ls| == |rs| then None else Some(true)
    else if i >= |rs| then
      Some(false)
    else
      var decision := InRightOrder(ls[i], rs[i]);
      if decision.Some? then decision else ListsInRightOrder(ls, rs, i + 1)
  }

  /** The first element pair that decides determines the comparison. */
  lemma {:induction false} FirstDecisionWins(ls: seq<Packet>, rs: seq<Packet>, i: nat, k: nat)
    requires i <= k < |ls| && k < |rs|
    requires forall j :: i <= j < k ==> InRightOrder(ls[j], rs[j]).None?
    requires InRightOrder(ls[k], rs[k]).Some?
    ensures ListsInRightOrder(ls, rs, i) == InRightOrder(ls[k], rs[k])
    decreases k - i
  {
    if i < k {
      FirstDecisionWins(ls, rs, i + 1, k);
    }
  }

  /** When no element pair decides, the lengths do: the right list running
      out first is the wrong order, the left one running out first the right
      order, and equal lengths stay undecided. */
  lemma {:induction false} ExhaustionDecides(ls: seq<Packet>, rs: seq<Packet>, i: nat)
    requires i <= |ls| && i <= |rs|
    requires forall j :: i <= j < |ls| && j < |rs| ==> InRightOrder(ls[j], rs[j]).None?
    ensures ListsInRightOrder(ls, rs, i) ==
      if |ls| > |rs| then Some(false) else if |ls| < |rs| then Some(true) else None
    decreases |ls| - i
  {
    if i < |ls| && i < |rs| {
      ExhaustionDecides(ls, rs, i + 1);
    }
  }

  /** A decided result flipped; `None` stays `None`. */
  function Flip(o: Option<bool>): (r: Option<bool>)
    ensures r.Some? <==> o.Some?
    ensures r.Some? ==> r.value != o.value
  {
    match o
    case None => None
    case Some(b) => Some(!b)
  }

  /** Swapping the two packets flips a decided result and keeps an undecided one. */
  lemma {:induction false} SwapFlips(left: Packet, right: Packet)
    ensures InRightOrder(right, left) == Flip(InRightOrder(left, right))
    decreases Size(left) + Size(right), 0
  {
    match (left, right)
    case (Integer(l), Integer(r)) =>
    case (List(ls), List(rs)) =>
      SwapFlipsLists(ls, rs, 0);
    case (Integer(_), List(rs)) =>
      assert SizeFrom([left], 0) == Size(left) by { assert SizeFrom([left], 1) == 0; }
      SwapFlipsLists([left], rs, 0);
    case (List(ls), Integer(_)) =>
      assert SizeFrom([right], 0) == Size(right) by { assert SizeFrom([right], 1) == 0; }
      SwapFlipsLists(ls, [right], 0);
  }

  lemma {:induction false} SwapFlipsLists(ls: seq<Packet>, rs: seq<Packet>, i: nat)
    requires i <= |ls| && i <= |rs|
    ensures ListsInRightOrder(rs, ls, i) == Flip(ListsInRightOrder(ls, rs, i))
    decreases SizeFrom(ls, i) + SizeFrom(rs, i), 1
  {
    if i < |ls| && i < |rs| {
      SwapFlips(ls[i], rs[i]);
      SwapFlipsLists(ls, rs, i + 1);
    }
  }

  /** A packet compared with itself is undecided. */
  lemma {:induction false} SelfUndecided(p: Packet)
    ensures InRightOrder(p, p).None?
    decreases Size(p) + Size(p), 0
  {
    if p.List? {
      SelfUndecidedLists(p.items, 0);
    }
  }

  lemma {:induction false} SelfUndecidedLists(ps: seq<Packet>, i: nat)
    requires i <= |ps|
    ensures ListsInRightOrder(ps, ps, i).None?
    decreases SizeFrom(ps, i) + SizeFrom(ps, i), 1
  {
    if i < |ps| {
      SelfUndecided(ps[i]);
      SelfUndecidedLists(ps, i + 1);
    }
  }

  // ---------------------------------------------------------------------------
  // Parsing

  /** `alt((parse_list, parse_integer))`. */
  function ParsePacket(s: string): (r: Option<Parsed<Packet>>)
    ensures r.Some? ==> |r.value.rest| < |s|
    decreases |s|, 1
  {
    var list := ParseList(s);
    if list.Some? then list
    else
      var n :- U32(s);
      Some(Parsed(Integer(n.value), n.rest))
  }

  /** `delimited(char('['), separated_list0(char(','), parse_packet), char(']'))`. */
  function ParseList(s: string): (r: Option<Parsed<Packet>>)
    ensures r.Some? ==> |r.value.rest| < |s|
    decreases |s|, 0
  {
    if s == [] || s[0] != '[' then None
    else
      var items := ParseItems(s[1..]);
      if items.rest != [] && items.rest[0] == ']' then
        Some(Parsed(List(items.value), items.rest[1..]))
      else
        None
  }

  /** `separated_list0(char(','), parse_packet)`: no packet gives an empty list. */
  function ParseItems(s: string): (r: Parsed<seq<Packet>>)
    ensures |r.rest| <= |s|
    decreases |s|, 2
  {
    var first := ParsePacket(s);
    if first.None? then Parsed([], s)
    else
      var more := ParseItemsTail(first.value.rest);
      Parsed([first.value.value] + more.value, more.rest)
  }

  /** Further `,packet` items; a comma not followed by a packet is left unconsumed. */
  function ParseItemsTail(s: string): (r: Parsed<seq<Packet>>)
    ensures |r.rest| <= |s|
    decreases |s|, 2
  {
    if s == [] || s[0] != ',' then Parsed([], s)
    else
      var next := ParsePacket(s[1..]);
      if next.None? then Parsed([], s)
      else
        var more := ParseItemsTail(next.value.rest);
        Parsed([next.value.value] + more.value, more.rest)
  }

  /** The text of a packet. */
  function Format(p: Packet): string
    decreases p, 0
  {
    match p
    case Integer(n) => NatToString(n)
    case List(ps) => "[" + FormatItems(ps) + "]"
  }

  function FormatItems(ps: seq<Packet>): string
    decreases ps, |ps| + 1
  {
    if ps == [] then "" else Format(ps[0]) + FormatTail(ps, 1)
  }

  function FormatTail(ps: seq<Packet>, i: nat): string
    decreases ps, |ps| - i
  {
    if i >= |ps| then "" else "," + Format(ps[i]) + FormatTail(ps, i + 1)
  }

  /** Every integer fits in the parser's `u32`. */
  predicate Bounded(p: Packet) {
    match p
    case Integer(n) => n <= U32_MAX
    case List(ps) => forall i :: 0 <= i < |ps| ==> Bounded(ps[i])
  }

  /** What may follow a packet in a pair list: the end, a comma, a bracket or a line break. */
  predicate PacketEnd(rest: string) {
    rest == [] || rest[0] == ',' || rest[0] == ']' || rest[0] == '\n'
  }

  /** Reading a packet's text back gives the packet. */
  lemma {:induction false} PacketRoundTrip(p: Packet, rest: string)
    requires Bounded(p) && PacketEnd(rest)
    ensures ParsePacket(Format(p) + rest) == Some(Parsed(p, rest))
    decreases p, 0
  {
    match p
    case Integer(n) =>
      var t := NatToString(n);
      assert (t + rest)[0] == t[0];
      U32RoundTrip(n, rest);
    case List(ps) =>
      var s := Format(p) + rest;
      assert s == "[" + (FormatItems(ps) + ("]" + rest));
      assert s[1..] == FormatItems(ps) + ("]" + rest);
      ItemsRoundTrip(ps, "]" + rest);
      assert ("]" + rest)[1..] == rest;
  }

  lemma {:induction false} ItemsRoundTrip(ps: seq<Packet>, rest: string)
    requires forall i :: 0 <= i < |ps| ==> Bounded(ps[i])
    requires rest != [] && rest[0] == ']'
    ensures ParseItems(FormatItems(ps) + rest) == Parsed(ps, rest)
    decreases ps, |ps| + 1
  {
    if ps == [] {
      assert FormatItems(ps) + rest == rest;
      assert ParsePacket(rest).None? by {
        assert ParseList(rest).None?;
        assert U32(rest).None?;
      }
    } else {
      var tail := FormatTail(ps, 1) + rest;
      assert FormatItems(ps) + rest == Format(ps[0]) + tail;
      PacketRoundTrip(ps[0], tail);
      TailRoundTrip(ps, 1, rest);
      assert [ps[0]] + ps[1..] == ps;
    }
  }

  lemma {:induction false} TailRoundTrip(ps: seq<Packet>, i: nat, rest: string)
    requires 1 <= i <= |ps|
    requires forall j :: 0 <= j < |ps| ==> Bounded(ps[j])
    requires rest != [] && rest[0] == ']'
    ensures ParseItemsTail(FormatTail(ps, i) + rest) == Parsed(ps[i..], rest)
    decreases ps, |ps| - i
  {
    if i < |ps| {
      var tail := FormatTail(ps, i + 1) + rest;
      var text := Format(ps[i]) + tail;
      assert FormatTail(ps, i) + rest == "," + text;
      assert ParsePacket(text) == Some(Parsed(ps[i], tail)) by {
        PacketRoundTrip(ps[i], tail);
      }
      TailStep(text, ps[i], tail);
      TailRoundTrip(ps, i + 1, rest);
      assert [ps[i]] + ps[i + 1..] == ps[i..];
    } else {
      assert FormatTail(ps, i) + rest == rest;
    }
  }

  /** One `,packet` item, then whatever further items follow. */
  lemma TailStep(text: string, p: Packet, rest: string)
    requires ParsePacket(text) == Some(Parsed(p, rest))
    ensures ParseItemsTail("," + text) == Parsed([p] + ParseItemsTail(rest).value, ParseItemsTail(rest).rest)
  {
    assert ("," + text)[1..] == text;
  }

  /** `separated_pair(parse_packet, newline, parse_packet)`. */
  function ParsePair(s: string): (r: Option<Parsed<(Packet, Packet)>>)
    ensures r.Some? ==> |r.value.rest| < |s|
  {
    var left :- ParsePacket(s);
    var afterNewline :- Newline(left.rest);
    var right :- ParsePacket(afterNewline);
    Some(Parsed((left.value, right.value), right.rest))
  }

  /** Reading a pair's two lines back gives the pair. */
  lemma PairRoundTrip(left: Packet, right: Packet, rest: string)
    requires Bounded(left) && Bounded(right)
    requires rest == [] || rest[0] == '\n'
    ensures ParsePair(Format(left) + ("\n" + (Format(right) + rest))) == Some(Parsed((left, right), rest))
  {
    var second := Format(right) + rest;
    PacketRoundTrip(left, "\n" + second);
    TagOfConcat("\n", second);
    PacketRoundTrip(right, rest);
  }

  /** The blank line between pairs: `pair(newline, newline)`. */
  function BlankLine(s: string): (r: Option<string>)
    ensures r.Some? <==> |s| >= 2 && s[0] == '\n' && s[1] == '\n'
    ensures r.Some? ==> r.value == s[2..]
  {
    Tag("\n\n", s)
  }

  lemma PairParsersProgress()
    ensures NeverGrows(ParsePair) && SkipperConsumes(BlankLine)
  {
  }

  /** `parse_packet_pairs`: pairs separated by blank lines. */
  function ParsePairs(s: string): Parsed<seq<(Packet, Packet)>> {
    PairParsersProgress();
    SeparatedList0(ParsePair, BlankLine, s)
  }

  // ---------------------------------------------------------------------------
  // Part one

  /** `is_in_right_order(..).unwrap_or(true)`: an undecided pair counts as ordered. */
  predicate Ordered(pair: (Packet, Packet)) {
    InRightOrder(pair.0, pair.1).UnwrapOr(true)
  }

  /** The 1-based indices of the ordered pairs, in increasing order. */
  function OrderedIndices(pairs: seq<(Packet, Packet)>): (r: seq<nat>)
    ensures forall k :: k in r <==> 1 <= k <= |pairs| && Ordered(pairs[k - 1])
    ensures forall i :: 0 <= i < |r| ==> 1 <= r[i] <= |pairs|
    ensures forall i, j :: 0 <= i < j < |r| ==> r[i] < r[j]
  {
    if pairs == [] then []
    else
      var n := |pairs|;
      var init := pairs[..n - 1];
      assert forall k :: 0 <= k < n - 1 ==> init[k] == pairs[k];
      OrderedIndices(init) + (if Ordered(pairs[n - 1]) then [n] else [])
  }

  function Sum(xs: seq<nat>): nat {
    if xs == [] then 0 else Sum(xs[..|xs| - 1]) + xs[|xs| - 1]
  }

  datatype Error = Unparsed(rest: string)

  /** `part_one`: the sum of the ordered pairs' indices; input the parser
      does not consume is an error. */
  function PartOne(input: string): (r: Result<nat, Error>)
    ensures var p := ParsePairs(input);
      r.Ok? <==> p.rest == []
  {
    var parsed := ParsePairs(input);
    if parsed.rest != [] then Err(Unparsed(parsed.rest))
    else Ok(Sum(OrderedIndices(parsed.value)))
  }

  lemma OrderedIndicesSnoc(pairs: seq<(Packet, Packet)>)
    requires pairs != []
    ensures var n := |pairs|;
      OrderedIndices(pairs) == OrderedIndices(pairs[..n - 1]) + (if Ordered(pairs[n - 1]) then [n] else [])
  {
  }

  lemma OrderedIndicesStep(pairs: seq<(Packet, Packet)>, k: nat, prefix: seq<nat>)
    requires k < |pairs| && OrderedIndices(pairs[..k]) == prefix
    ensures OrderedIndices(pairs[..k + 1]) == prefix + (if Ordered(pairs[k]) then [k + 1] else [])
  {
    assert pairs[..k + 1][..k] == pairs[..k];
    OrderedIndicesSnoc(pairs[..k + 1]);
  }

  lemma SumSnoc(xs: seq<nat>, x: nat)
    ensures Sum(xs + [x]) == Sum(xs) + x
  {
    assert (xs + [x])[..|xs|] == xs;
  }

  /** All pairs ordered: the sum is the triangular number of the pair count. */
  lemma AllOrderedSum(pairs: seq<(Packet, Packet)>)
    requires forall i :: 0 <= i < |pairs| ==> Ordered(pairs[i])
    ensures 2 * Sum(OrderedIndices(pairs)) == |pairs| * (|pairs| + 1)
  {
    AllOrderedIndices(pairs);
    SumOneTo(|pairs|);
  }

  /** The numbers `1` to `n`, in order. */
  function OneTo(n: nat): seq<nat> {
    if n == 0 then [] else OneTo(n - 1) + [n]
  }

  /** All pairs ordered: every index from 1 to the pair count is listed. */
  lemma {:induction false} AllOrderedIndices(pairs: seq<(Packet, Packet)>)
    requires forall i :: 0 <= i < |pairs| ==> Ordered(pairs[i])
    ensures OrderedIndices(pairs) == OneTo(|pairs|)
  {
    if pairs != [] {
      var n := |pairs|;
      var init := pairs[..n - 1];
      assert forall i :: 0 <= i < n - 1 ==> init[i] == pairs[i];
      AllOrderedIndices(init);
      OrderedIndicesSnoc(pairs);
      assert Ordered(pairs[n - 1]);
    }
  }

  lemma {:induction false} SumOneTo(n: nat)
    ensures 2 * Sum(OneTo(n)) == n * (n + 1)
  {
    if n > 0 {
      SumOneTo(n - 1);
      SumSnoc(OneTo(n - 1), n);
      TriangleStep(n, Sum(OneTo(n - 1)));
    }
  }

  /** Adding `n` to the triangular number of `n - 1` gives that of `n`. */
  lemma TriangleStep(n: int, s: int)
    requires 2 * s == (n - 1) * n
    ensures 2 * (s + n) == n * (n + 1)
  {
  }

  // ---------------------------------------------------------------------------
  // Examples

  function I(n: nat): Packet { Integer(n) }
  function L(ps: seq<Packet>): Packet { List(ps) }

  /** `[[4,4],4,4]` against `[[4,4],4,4,4]`: the left list runs out first. */
  lemma ExampleFour()
    ensures InRightOrder(L([L([I(4), I(4)]), I(4), I(4)]), L([L([I(4), I(4)]), I(4), I(4), I(4)])) == Some(true)
  {
    var inner := L([I(4), I(4)]);
    SelfUndecided(inner);
    var ls, rs := [inner, I(4), I(4)], [inner, I(4), I(4), I(4)];
    ExhaustionDecides(ls, rs, 0);
  }

  /** The long pair of the source's eighth test. */
  function EightLeft(): Packet {
    L([
      L([]),
      L([I(9)]),
      L([I(4), L([L([I(10)])]), I(8), I(10), L([I(10), I(10), L([]), L([])])]),
      L([L([]), L([L([I(10), I(4), I(6)])]), L([L([I(1), I(1), I(6)]), L([])]), I(5)]),
      L([L([L([I(1), I(7), I(5)]), L([I(10), I(1), I(6)]), I(6), L([])]), L([]), I(2), I(3), I(9)])
    ])
  }

  function EightRight(): Packet {
    L([
      L([]),
      L([L([I(4), L([I(5), I(4), I(8), I(7)]), L([I(10)])])]),
      L([I(10), I(7), L([I(3)]), I(8)]),
      L([L([I(6), L([I(1), I(2), I(9), I(5)])]), L([]), L([L([I(2), I(4), I(3)])]), L([I(3), L([I(3), I(8), I(9), I(8)]), L([I(9)])])]),
      L([L([L([I(6), I(0), I(0), I(7), I(3)]), I(9), I(3)]), L([I(9), L([I(0), I(4)])]), L([L([I(8), I(8)]), L([I(2), I(1), I(8)]), L([])]), I(3), L([])])
    ])
  }

  /** In the eighth test the second elements decide: `[9]` against
      `[[4,[5,4,8,7],[10]]]`, where 9 is greater than 4. */
  lemma ExampleEight()
    ensures InRightOrder(EightLeft(), EightRight()) == Some(false)
  {
    var deciding := [I(4), L([I(5), I(4), I(8), I(7)]), L([I(10)])];
    FirstDecisionWins([I(9)], deciding, 0, 0);
    FirstDecisionWins([L([I(9)])], [L(deciding)], 0, 0);
    var ls, rs := EightLeft().items, EightRight().items;
    assert ls[0] == L([]) && rs[0] == L([]);
    assert ls[1] == L([I(9)]) && rs[1] == L([L(deciding)]);
    FirstDecisionWins(ls, rs, 0, 1);
  }

  /** The puzzle's example pairs, where pairs 1, 2, 4 and 6 are ordered. */
  function ExamplePairs(): seq<(Packet, Packet)> {
    [
      (L([I(1), I(1), I(3), I(1), I(1)]), L([I(1), I(1), I(5), I(1), I(1)])),
      (L([L([I(1)]), L([I(2), I(3), I(4)])]), L([L([I(1)]), I(4)])),
      (L([I(9)]), L([L([I(8), I(7), I(6)])])),
      (L([L([I(4), I(4)]), I(4), I(4)]), L([L([I(4), I(4)]), I(4), I(4), I(4)])),
      (L([I(7), I(7), I(7), I(7)]), L([I(7), I(7), I(7)])),
      (L([]), L([I(3)])),
      (L([L([L([])])]), L([L([])])),
      (L([I(1), L([I(2), L([I(3), L([I(4), L([I(5), I(6), I(7)])])])]), I(8), I(9)]),
       L([I(1), L([I(2), L([I(3), L([I(4), L([I(5), I(6), I(0)])])])]), I(8), I(9)]))
    ]
  }

  lemma ExampleOrder1()
    ensures Ordered(ExamplePairs()[0])
  {
    var ls, rs := [I(1), I(1), I(3), I(1), I(1)], [I(1), I(1), I(5), I(1), I(1)];
    FirstDecisionWins(ls, rs, 0, 2);
  }

  lemma ExampleOrder2()
    ensures Ordered(ExamplePairs()[1])
  {
    SelfUndecided(L([I(1)]));
    var ls, rs := [L([I(1)]), L([I(2), I(3), I(4)])], [L([I(1)]), I(4)];
    assert InRightOrder(ls[1], rs[1]) == Some(true) by {
      FirstDecisionWins([I(2), I(3), I(4)], [I(4)], 0, 0);
    }
    FirstDecisionWins(ls, rs, 0, 1);
  }

  lemma ExampleOrder3()
    ensures !Ordered(ExamplePairs()[2])
  {
    var ls, rs := [I(9)], [L([I(8), I(7), I(6)])];
    assert InRightOrder(ls[0], rs[0]) == Some(false) by {
      FirstDecisionWins([I(9)], [I(8), I(7), I(6)], 0, 0);
    }
    FirstDecisionWins(ls, rs, 0, 0);
  }

  lemma ExampleOrder4()
    ensures Ordered(ExamplePairs()[3])
  {
    ExampleFour();
  }

  lemma ExampleOrder5()
    ensures !Ordered(ExamplePairs()[4])
  {
    ExhaustionDecides([I(7), I(7), I(7), I(7)], [I(7), I(7), I(7)], 0);
  }

  lemma ExampleOrder6()
    ensures Ordered(ExamplePairs()[5])
  {
  }

  lemma ExampleOrder7()
    ensures !Ordered(ExamplePairs()[6])
  {
    var ls, rs := [L([L([])])], [L([])];
    assert InRightOrder(ls[0], rs[0]) == Some(false);
    FirstDecisionWins(ls, rs, 0, 0);
  }

  lemma ExampleOrder8()
    ensures !Ordered(ExamplePairs()[7])
  {
    var deep1, deep2 := [I(5), I(6), I(7)], [I(5), I(6), I(0)];
    FirstDecisionWins(deep1, deep2, 0, 2);
    var four1, four2 := [I(4), L(deep1)], [I(4), L(deep2)];
    FirstDecisionWins(four1, four2, 0, 1);
    var three1, three2 := [I(3), L(four1)], [I(3), L(four2)];
    FirstDecisionWins(three1, three2, 0, 1);
    var two1, two2 := [I(2), L(three1)], [I(2), L(three2)];
    FirstDecisionWins(two1, two2, 0, 1);
    var ls, rs := [I(1), L(two1), I(8), I(9)], [I(1), L(two2), I(8), I(9)];
    FirstDecisionWins(ls, rs, 0, 1);
  }

  /** Eight pairs of which exactly the 1st, 2nd, 4th and 6th are ordered sum to 13. */
  lemma SumOfOrderPattern(pairs: seq<(Packet, Packet)>)
    requires |pairs| == 8
    requires Ordered(pairs[0]) && Ordered(pairs[1]) && !Ordered(pairs[2]) && Ordered(pairs[3])
    requires !Ordered(pairs[4]) && Ordered(pairs[5]) && !Ordered(pairs[6]) && !Ordered(pairs[7])
    ensures OrderedIndices(pairs) == [1, 2, 4, 6]
    ensures Sum(OrderedIndices(pairs)) == 13
  {
    assert pairs[..0] == [];
    OrderedIndicesStep(pairs, 0, []);
    OrderedIndicesStep(pairs, 1, [1]);
    OrderedIndicesStep(pairs, 2, [1, 2]);
    OrderedIndicesStep(pairs, 3, [1, 2]);
    OrderedIndicesStep(pairs, 4, [1, 2, 4]);
    OrderedIndicesStep(pairs, 5, [1, 2, 4]);
    OrderedIndicesStep(pairs, 6, [1, 2, 4, 6]);
    OrderedIndicesStep(pairs, 7, [1, 2, 4, 6]);
    assert pairs[..8] == pairs;
    SumSnoc([], 1);
    SumSnoc([1], 2);
    SumSnoc([1, 2], 4);
    SumSnoc([1, 2, 4], 6);
  }

  /** Pairs 1, 2, 4 and 6 of the example are ordered: part one gives 13. */
  lemma ExamplePartOne()
    ensures OrderedIndices(ExamplePairs()) == [1, 2, 4, 6]
    ensures Sum(OrderedIndices(ExamplePairs())) == 13
  {
    ExampleOrder1();
    ExampleOrder2();
    ExampleOrder3();
    ExampleOrder4();
    ExampleOrder5();
    ExampleOrder6();
    ExampleOrder7();
    ExampleOrder8();
    SumOfOrderPattern(ExamplePairs());
  }
}
