/** Rope bridge (src/bin/09.rs): a rope's head follows a list of motions one
    unit step at a time, and its tail follows the head. Part one counts the
    distinct positions the tail visits. */
module RopeBridge {
  import opened Wrappers
  import opened Parsing

  datatype Motion = Up(amount: nat) | Down(amount: nat) | Left(amount: nat) | Right(amount: nat)

  /** A `TwoD`: a point on the grid. */
  datatype Pos = Pos(x: int, y: int)

  datatype Error =
    | ParseFailed             // `parse_motions` reports an error
    | Unparsed(rest: string)  // input left after the motions

  // ---------------------------------------------------------------------------
  // Parsing

  function MotionOf(dir: char, amount: nat): Motion
    requires dir in "UDLR"
  {
    match dir
    case 'L' => Left(amount)
    case 'R' => Right(amount)
    case 'U' => Up(amount)
    case 'D' => Down(amount)
  }

  /** `parse_motion`: one of `UDLR`, blanks, a `u32`. */
  function ParseMotion(s: string): (r: Option<Parsed<Motion>>)
    ensures r.Some? ==> |r.value.rest| < |s|
  {
    if s == [] || s[0] !in "UDLR" then None
    else
      var blank :- TakeWhile1(IsSpace, s[1..]);
      var amount :- U32(blank.rest);
      Some(Parsed(MotionOf(s[0], amount.value), amount.rest))
  }

  lemma MotionProgress()
    ensures NeverGrows(ParseMotion) && SkipperConsumes(Newline)
  {
  }

  /** `parse_motions`: one or more motions separated by line breaks. */
  function ParseMotions(s: string): (r: Option<Parsed<seq<Motion>>>)
    ensures r.Some? ==> |r.value.value| >= 1
  {
    MotionProgress();
    SeparatedList1(ParseMotion, Newline, s)
  }

  function DirectionChar(m: Motion): char {
    match m
    case Up(_) => 'U'
    case Down(_) => 'D'
    case Left(_) => 'L'
    case Right(_) => 'R'
  }

  function FormatMotion(m: Motion): string {
    [DirectionChar(m)] + " " + NatToString(m.amount)
  }

  lemma DirectionCharOf(m: Motion)
    ensures DirectionChar(m) in "UDLR" && MotionOf(DirectionChar(m), m.amount) == m
  {
  }

  /** One blank then a number's digits, read as `space1` then `u32`. */
  lemma BlankThenNumber(amount: nat, rest: string)
    requires amount <= U32_MAX && NoDigitAhead(rest)
    ensures var digits := NatToString(amount) + rest;
      && TakeWhile1(IsSpace, " " + digits) == Some(Parsed(" ", digits))
      && U32(digits) == Some(Parsed(amount, rest))
  {
    var digits := NatToString(amount) + rest;
    TakeWhile1OfConcat(IsSpace, " ", digits);
    U32RoundTrip(amount, rest);
  }

  /** Reading a motion's text back gives the motion. */
  lemma MotionRoundTrip(m: Motion, rest: string)
    requires m.amount <= U32_MAX && NoDigitAhead(rest)
    ensures ParseMotion(FormatMotion(m) + rest) == Some(Parsed(m, rest))
  {
    var s := FormatMotion(m) + rest;
    assert s[0] == DirectionChar(m) && s[1..] == " " + (NatToString(m.amount) + rest);
    BlankThenNumber(m.amount, rest);
    DirectionCharOf(m);
  }

  function MotionTexts(motions: seq<Motion>): seq<string> {
    seq(|motions|, i requires 0 <= i < |motions| => FormatMotion(motions[i]))
  }

  /** The motions, one per line. */
  function FormatMotions(motions: seq<Motion>): string
    requires |motions| >= 1
  {
    FormatMotion(motions[0]) + Prefixed("\n", MotionTexts(motions[1..]))
  }

  /** Every amount fits in a `u32`. */
  predicate AmountsFit(motions: seq<Motion>) {
    forall i :: 0 <= i < |motions| ==> motions[i].amount <= U32_MAX
  }

  lemma MotionsRead(motions: seq<Motion>)
    requires AmountsFit(motions)
    ensures ReadsEach(ParseMotion, MotionTexts(motions), motions, NoDigitAhead)
  {
    forall i, x | 0 <= i < |motions| && NoDigitAhead(x)
      ensures ParseMotion(MotionTexts(motions)[i] + x) == Some(Parsed(motions[i], x))
    {
      MotionRoundTrip(motions[i], x);
    }
  }

  /** Motions written one per line read back as themselves, up to text that
      is neither a further digit nor a line break before a further motion. */
  lemma MotionsRoundTrip(motions: seq<Motion>, rest: string)
    requires |motions| >= 1 && AmountsFit(motions)
    requires NoDigitAhead(rest)
    requires rest == [] || rest[0] != '\n' || ParseMotion(rest[1..]).None?
    ensures ParseMotions(FormatMotions(motions) + rest) == Some(Parsed(motions, rest))
  {
    assert [motions[0]] + motions[1..] == motions;
    MotionProgress();
    var tail := Prefixed("\n", MotionTexts(motions[1..])) + rest;
    assert FormatMotions(motions) + rest == FormatMotion(motions[0]) + tail;
    assert NoDigitAhead(tail) by {
      if motions[1..] != [] {
        PrefixedCons("\n", MotionTexts(motions[1..]), rest);
      } else {
        assert tail == rest;
      }
    }
    MotionRoundTrip(motions[0], tail);
    MotionsRead(motions[1..]);
    forall x ensures Newline("\n" + x) == Some(x) && NoDigitAhead("\n" + x) {
      assert ("\n" + x)[1..] == x;
    }
    SeparatedTailOfPrefixed(ParseMotion, Newline, "\n", MotionTexts(motions[1..]), motions[1..], NoDigitAhead, rest);
    SeparatedList0Step(ParseMotion, Newline, FormatMotions(motions) + rest, motions[0], tail, motions[1..], rest);
  }

  // ---------------------------------------------------------------------------
  // Steps of the head

  /** `TwoD::add`. */
  function Plus(p: Pos, d: Pos): Pos {
    Pos(p.x + d.x, p.y + d.y)
  }

  /** The unit step of a motion's direction. */
  function Direction(m: Motion): Pos {
    match m
    case Up(_) => Pos(0, 1)
    case Down(_) => Pos(0, -1)
    case Left(_) => Pos(-1, 0)
    case Right(_) => Pos(1, 0)
  }

  predicate Unit(d: Pos) {
    -1 <= d.x <= 1 && -1 <= d.y <= 1
  }

  /** `head_moves`: the motion's unit step, `amount` times. */
  method HeadMoves(m: Motion) returns (res: seq<Pos>)
    ensures |res| == m.amount
    ensures forall i :: 0 <= i < |res| ==> res[i] == Direction(m)
  {
    res := [];
    for r := 0 to m.amount
      invariant |res| == r
      invariant forall i :: 0 <= i < r ==> res[i] == Direction(m)
    {
      res := res + [Direction(m)];
    }
  }

  /** The head's steps for one motion. */
  function Repeat(d: Pos, n: nat): (r: seq<Pos>)
    ensures |r| == n && forall i :: 0 <= i < n ==> r[i] == d
  {
    seq(n, _ => d)
  }

  /** The sum of a list of steps, with `TwoD::add`. */
  function Displacement(steps: seq<Pos>): Pos {
    if steps == [] then Pos(0, 0)
    else Plus(Displacement(steps[..|steps| - 1]), steps[|steps| - 1])
  }

  /** A motion moves the head `amount` units in its direction. */
  lemma {:induction false} MotionDisplacement(m: Motion, n: nat)
    ensures Displacement(Repeat(Direction(m), n)) == Pos(n * Direction(m).x, n * Direction(m).y)
  {
    if n > 0 {
      assert Repeat(Direction(m), n)[..n - 1] == Repeat(Direction(m), n - 1);
      MotionDisplacement(m, n - 1);
    }
  }

  /** All head steps of a list of motions, in order. */
  function Steps(motions: seq<Motion>): (r: seq<Pos>)
    ensures forall i :: 0 <= i < |r| ==> Unit(r[i])
  {
    if motions == [] then []
    else
      var last := motions[|motions| - 1];
      Steps(motions[..|motions| - 1]) + Repeat(Direction(last), last.amount)
  }

  // ---------------------------------------------------------------------------
  // The tail

  function Sign(d: int): int {
    if d > 0 then 1 else if d < 0 then -1 else 0
  }

  function Abs(d: int): nat {
    if d < 0 then -d else d
  }

  /** Head and tail overlap or are adjacent, diagonals included. */
  predicate Touching(a: Pos, b: Pos) {
    -1 <= a.x - b.x <= 1 && -1 <= a.y - b.y <= 1
  }

  /** The rule the tail follows: it stays while touching the head, and
      otherwise takes one step toward the head on each axis where they differ. */
  function Chase(tail: Pos, head: Pos): Pos {
    if Touching(tail, head) then tail
    else Pos(tail.x + Sign(head.x - tail.x), tail.y + Sign(head.y - tail.y))
  }

  /** When the head is at most two away on each axis, the chasing tail ends
      up touching it. */
  lemma ChaseTouches(tail: Pos, head: Pos)
    requires Abs(head.x - tail.x) <= 2 && Abs(head.y - tail.y) <= 2
    ensures Touching(Chase(tail, head), head)
    ensures Unit(Pos(Chase(tail, head).x - tail.x, Chase(tail, head).y - tail.y))
  {
  }

  /** A knot of the rope, updated in place as `&mut TwoD`. */
  class Knot {
    var x: int
    var y: int

    constructor (x0: int, y0: int)
      ensures x == x0 && y == y0
    {
      x, y := x0, y0;
    }

    function At(): Pos
      reads this
    {
      Pos(x, y)
    }

    /** `TwoD::add`: add a step component-wise in place. */
    method Add(d: Pos)
      modifies this
      ensures At() == Plus(old(At()), d)
    {
      x := x + d.x;
      y := y + d.y;
    }

    /** `tail_move`: the source panics when the head is more than two away
        on either axis; that is this method's precondition. A long jump
        (more than two apart in total) steps diagonally toward the head;
        otherwise only an axis two apart is closed by one. */
    method Follow(head: Knot)
      requires head != this
      requires Abs(head.x - x) <= 2 && Abs(head.y - y) <= 2
      modifies this
      ensures At() == Chase(old(At()), head.At())
    {
      var dx := head.x - x;
      var dy := head.y - y;
      var diagonal := Abs(dx) + Abs(dy) > 2;
      if diagonal {
        if dx > 0 {
          x := x + 1;
        }
        if dx < 0 {
          x := x - 1;
        }
        if dy > 0 {
          y := y + 1;
        }
        if dy < 0 {
          y := y - 1;
        }
        return;
      }
      if dx > 0 && Abs(dx) == 2 {
        x := x + 1;
      }
      if dx < 0 && Abs(dx) == 2 {
        x := x - 1;
      }
      if dy > 0 && Abs(dy) == 2 {
        y := y + 1;
      }
      if dy < 0 && Abs(dy) == 2 {
        y := y - 1;
      }
    }
  }

  /** The source's unit tests for `tail_move` where the head is two away
      along one axis. */
  lemma ChaseStraightExamples()
    ensures Chase(Pos(0, 0), Pos(2, 0)) == Pos(1, 0)
    ensures Chase(Pos(2, 3), Pos(4, 3)) == Pos(3, 3)
    ensures Chase(Pos(0, 0), Pos(0, 2)) == Pos(0, 1)
  {
    assert !Touching(Pos(0, 0), Pos(2, 0)) && Sign(2) == 1 && Sign(0) == 0;
    assert !Touching(Pos(2, 3), Pos(4, 3));
    assert !Touching(Pos(0, 0), Pos(0, 2));
  }

  /** The source's unit tests for `tail_move` where the tail steps diagonally. */
  lemma ChaseDiagonalExamples()
    ensures Chase(Pos(4, 3), Pos(2, 4)) == Pos(3, 4)
    ensures Chase(Pos(0, 0), Pos(1, 2)) == Pos(1, 1)
  {
  }

  /** The source's unit tests for `tail_move` where the tail stays put. */
  lemma ChaseStaysExamples()
    ensures Chase(Pos(3, 0), Pos(4, 1)) == Pos(3, 0)
    ensures Chase(Pos(0, 0), Pos(1, 0)) == Pos(0, 0)
    ensures Chase(Pos(2, 4), Pos(1, 3)) == Pos(2, 4)
    ensures Chase(Pos(2, 4), Pos(2, 3)) == Pos(2, 4)
    ensures Chase(Pos(2, 4), Pos(3, 3)) == Pos(2, 4)
  {
  }

  // ---------------------------------------------------------------------------
  // The simulation

  datatype Rope = Rope(head: Pos, tail: Pos)

  const Start := Rope(Pos(0, 0), Pos(0, 0))

  /** One head step, then the tail follows. */
  function Advance(r: Rope, d: Pos): Rope {
    var head := Plus(r.head, d);
    Rope(head, Chase(r.tail, head))
  }

  /** The rope after all steps. */
  function Final(r: Rope, steps: seq<Pos>): Rope {
    if steps == [] then r else Advance(Final(r, steps[..|steps| - 1]), steps[|steps| - 1])
  }

  /** The tail's position after each step. */
  function Trail(r: Rope, steps: seq<Pos>): (t: seq<Pos>)
    ensures |t| == |steps|
  {
    if steps == [] then []
    else Trail(r, steps[..|steps| - 1]) + [Final(r, steps).tail]
  }

  /** The head ends where the sum of its steps takes it. */
  lemma {:induction false} HeadFollowsSteps(r: Rope, steps: seq<Pos>)
    ensures Final(r, steps).head == Plus(r.head, Displacement(steps))
  {
    if steps != [] {
      HeadFollowsSteps(r, steps[..|steps| - 1]);
    }
  }

  /** The tail never falls behind: unit steps from a touching rope keep it
      touching after every step. */
  lemma {:induction false} TailTouchesHead(r: Rope, steps: seq<Pos>)
    requires Touching(r.tail, r.head)
    requires forall k :: 0 <= k < |steps| ==> Unit(steps[k])
    ensures Touching(Final(r, steps).tail, Final(r, steps).head)
  {
    if steps != [] {
      var init := steps[..|steps| - 1];
      TailTouchesHead(r, init);
      var before := Final(r, init);
      ChaseTouches(before.tail, Plus(before.head, steps[|steps| - 1]));
    }
  }

  /** The tail moves at most one unit per axis per step. */
  lemma TrailIsContinuous(steps: seq<Pos>, i: nat)
    requires forall k :: 0 <= k < |steps| ==> Unit(steps[k])
    requires 0 < i <= |steps|
    ensures Unit(Pos(Final(Start, steps[..i]).tail.x - Final(Start, steps[..i - 1]).tail.x,
                     Final(Start, steps[..i]).tail.y - Final(Start, steps[..i - 1]).tail.y))
  {
    var before := Final(Start, steps[..i - 1]);
    assert steps[..i][..i - 1] == steps[..i - 1];
    TailTouchesHead(Start, steps[..i - 1]);
    ChaseTouches(before.tail, Plus(before.head, steps[i - 1]));
  }

  function Distinct(visits: seq<Pos>): set<Pos> {
    set p | p in visits
  }

  /** `part_one` as a value: the number of distinct tail positions, the
      start included. */
  function Answer(input: string): Result<nat, Error> {
    match ParseMotions(input)
    case None => Err(ParseFailed)
    case Some(parsed) =>
      if parsed.rest != [] then Err(Unparsed(parsed.rest))
      else Ok(|Distinct([Start.tail] + TrailAfter(parsed.value))|)
  }

  lemma StepsSnoc(motions: seq<Motion>, i: nat)
    requires i < |motions|
    ensures Steps(motions[..i + 1]) == Steps(motions[..i]) + Repeat(Direction(motions[i]), motions[i].amount)
  {
    assert motions[..i + 1][..i] == motions[..i];
  }

  /** The inner loop of `part_one`: for each head step of one motion, move
      the head, let the tail follow and record the tail's position. */
  method FollowMoves(head: Knot, tail: Knot, moves: seq<Pos>, visits: seq<Pos>) returns (visits': seq<Pos>)
    requires head != tail
    requires forall k :: 0 <= k < |moves| ==> Unit(moves[k])
    requires Touching(tail.At(), head.At())
    modifies head, tail
    ensures Touching(tail.At(), head.At())
    ensures Rope(head.At(), tail.At()) == Final(old(Rope(head.At(), tail.At())), moves)
    ensures visits' == visits + Trail(old(Rope(head.At(), tail.At())), moves)
  {
    ghost var start := Rope(head.At(), tail.At());
    visits' := visits;
    for j := 0 to |moves|
      invariant Touching(tail.At(), head.At())
      invariant Rope(head.At(), tail.At()) == Final(start, moves[..j])
      invariant visits' == visits + Trail(start, moves[..j])
    {
      MoveRope(head, tail, moves[j]);
      assert moves[..j + 1][..j] == moves[..j];
      visits' := visits' + [tail.At()];
    }
    assert moves[..|moves|] == moves;
  }

  /** One head step of `part_one`'s inner loop: move the head, then let the
      tail follow. A rope that touches before a unit step touches after it. */
  method MoveRope(head: Knot, tail: Knot, d: Pos)
    requires head != tail && Unit(d)
    requires Touching(tail.At(), head.At())
    modifies head, tail
    ensures Rope(head.At(), tail.At()) == Advance(old(Rope(head.At(), tail.At())), d)
    ensures Touching(tail.At(), head.At())
  {
    head.Add(d);
    ChaseTouches(tail.At(), head.At());
    tail.Follow(head);
  }

  /** Running two lists of steps one after the other is running their
      concatenation. */
  lemma {:induction false} RunConcat(r: Rope, a: seq<Pos>, b: seq<Pos>)
    ensures Final(r, a + b) == Final(Final(r, a), b)
    ensures Trail(r, a + b) == Trail(r, a) + Trail(Final(r, a), b)
    decreases |b|
  {
    if b != [] {
      var init := b[..|b| - 1];
      assert (a + b)[..|a + b| - 1] == a + init;
      RunConcat(r, a, init);
    } else {
      assert a + b == a;
    }
  }

  /** The rope after following each motion in turn. */
  function RopeAfter(motions: seq<Motion>): Rope {
    if motions == [] then Start
    else
      var last := motions[|motions| - 1];
      Final(RopeAfter(motions[..|motions| - 1]), Repeat(Direction(last), last.amount))
  }

  /** The tail's positions while following each motion in turn. */
  function TrailAfter(motions: seq<Motion>): seq<Pos> {
    if motions == [] then []
    else
      var init, last := motions[..|motions| - 1], motions[|motions| - 1];
      TrailAfter(init) + Trail(RopeAfter(init), Repeat(Direction(last), last.amount))
  }

  /** Following the motions one by one is following all their head steps. */
  lemma {:induction false} MotionsAreSteps(motions: seq<Motion>)
    ensures RopeAfter(motions) == Final(Start, Steps(motions))
    ensures TrailAfter(motions) == Trail(Start, Steps(motions))
  {
    if motions != [] {
      var init, last := motions[..|motions| - 1], motions[|motions| - 1];
      MotionsAreSteps(init);
      RunConcat(Start, Steps(init), Repeat(Direction(last), last.amount));
    }
  }

  lemma MotionStep(motions: seq<Motion>, i: nat)
    requires i < |motions|
    ensures RopeAfter(motions[..i + 1])
         == Final(RopeAfter(motions[..i]), Repeat(Direction(motions[i]), motions[i].amount))
    ensures TrailAfter(motions[..i + 1])
         == TrailAfter(motions[..i]) + Trail(RopeAfter(motions[..i]), Repeat(Direction(motions[i]), motions[i].amount))
  {
    assert motions[..i + 1][..i] == motions[..i];
  }

  /** The loop of `part_one`: both knots start at the origin, and every
      motion is taken one head step at a time; the result lists every tail
      position, the start first. */
  method Simulate(motions: seq<Motion>) returns (visits: seq<Pos>)
    ensures visits == [Start.tail] + TrailAfter(motions)
  {
    var tail := new Knot(0, 0);
    var head := new Knot(0, 0);
    visits := [tail.At()];
    for i := 0 to |motions|
      invariant Touching(tail.At(), head.At())
      invariant Rope(head.At(), tail.At()) == RopeAfter(motions[..i])
      invariant visits == [Start.tail] + TrailAfter(motions[..i])
    {
      var moves := HeadMoves(motions[i]);
      assert moves == Repeat(Direction(motions[i]), motions[i].amount);
      assert forall k :: 0 <= k < |moves| ==> Unit(moves[k]);
      MotionStep(motions, i);
      visits := FollowMoves(head, tail, moves, visits);
      assert Rope(head.At(), tail.At()) == RopeAfter(motions[..i + 1]);
    }
    assert motions[..|motions|] == motions;
  }

  /** `part_one`: move the head step by step, let the tail follow, record
      every tail position and count the distinct ones. */
  method PartOne(input: string) returns (r: Result<nat, Error>)
    ensures r == Answer(input)
  {
    var parsed := ParseMotions(input);
    if parsed.None? {
      return Err(ParseFailed);
    }
    if parsed.value.rest != [] {
      return Err(Unparsed(parsed.value.rest));
    }
    var visits := Simulate(parsed.value.value);
    return Ok(|Distinct(visits)|);
  }

  // ---------------------------------------------------------------------------
  // The puzzle's example

  /** Following one more motion from any starting rope. */
  lemma MotionFrom(r: Rope, motions: seq<Motion>, i: nat)
    requires i < |motions|
    ensures var steps := Repeat(Direction(motions[i]), motions[i].amount);
      && Final(r, Steps(motions[..i + 1])) == Final(Final(r, Steps(motions[..i])), steps)
      && Trail(r, Steps(motions[..i + 1])) == Trail(r, Steps(motions[..i])) + Trail(Final(r, Steps(motions[..i])), steps)
  {
    StepsSnoc(motions, i);
    RunConcat(r, Steps(motions[..i]), Repeat(Direction(motions[i]), motions[i].amount));
  }

  /** The first head step of a motion, then the others. */
  lemma StepFirst(r: Rope, d: Pos, n: nat, next: Rope)
    requires n >= 1 && Advance(r, d) == next
    ensures Final(r, Repeat(d, n)) == Final(next, Repeat(d, n - 1))
    ensures Trail(r, Repeat(d, n)) == [next.tail] + Trail(next, Repeat(d, n - 1))
  {
    assert Repeat(d, n) == [d] + Repeat(d, n - 1);
    RunConcat(r, [d], Repeat(d, n - 1));
    assert [d][..0] == [];
  }

  lemma NoSteps(r: Rope, d: Pos, n: nat)
    requires n == 0
    ensures Final(r, Repeat(d, n)) == r && Trail(r, Repeat(d, n)) == []
  {
    assert Repeat(d, n) == [];
  }

  function ExampleMotions(): seq<Motion> {
    [Right(4), Up(4), Left(3), Down(1), Right(4), Down(1), Left(5), Right(2)]
  }

  /** The point `(dx, dy)` away from `o`. The example is followed from a
      rope with both knots at an arbitrary `o`, and placed at the origin
      only at the end. */
  function Offset(o: Pos, dx: int, dy: int): Pos {
    Pos(o.x + dx, o.y + dy)
  }

  function Origin(o: Pos): Rope {
    Rope(Offset(o, 0, 0), Offset(o, 0, 0))
  }

  // Each motion of the example, one head step at a time.

  lemma ExampleRight4(o: Pos, d: Pos, n: nat)
    requires d == Pos(1, 0) && n == 4
    ensures Final(Rope(Offset(o, 0, 0), Offset(o, 0, 0)), Repeat(d, n)) == Rope(Offset(o, 4, 0), Offset(o, 3, 0))
    ensures Trail(Rope(Offset(o, 0, 0), Offset(o, 0, 0)), Repeat(d, n)) == [Offset(o, 0, 0), Offset(o, 1, 0), Offset(o, 2, 0), Offset(o, 3, 0)]
  {
    StepFirst(Rope(Offset(o, 0, 0), Offset(o, 0, 0)), d, n, Rope(Offset(o, 1, 0), Offset(o, 0, 0)));
    StepFirst(Rope(Offset(o, 1, 0), Offset(o, 0, 0)), d, n - 1, Rope(Offset(o, 2, 0), Offset(o, 1, 0)));
    StepFirst(Rope(Offset(o, 2, 0), Offset(o, 1, 0)), d, n - 1 - 1, Rope(Offset(o, 3, 0), Offset(o, 2, 0)));
    StepFirst(Rope(Offset(o, 3, 0), Offset(o, 2, 0)), d, n - 1 - 1 - 1, Rope(Offset(o, 4, 0), Offset(o, 3, 0)));
    NoSteps(Rope(Offset(o, 4, 0), Offset(o, 3, 0)), d, n - 1 - 1 - 1 - 1);
  }

  lemma ExampleUp4(o: Pos, d: Pos, n: nat)
    requires d == Pos(0, 1) && n == 4
    ensures Final(Rope(Offset(o, 4, 0), Offset(o, 3, 0)), Repeat(d, n)) == Rope(Offset(o, 4, 4), Offset(o, 4, 3))
    ensures Trail(Rope(Offset(o, 4, 0), Offset(o, 3, 0)), Repeat(d, n)) == [Offset(o, 3, 0), Offset(o, 4, 1), Offset(o, 4, 2), Offset(o, 4, 3)]
  {
    StepFirst(Rope(Offset(o, 4, 0), Offset(o, 3, 0)), d, n, Rope(Offset(o, 4, 1), Offset(o, 3, 0)));
    StepFirst(Rope(Offset(o, 4, 1), Offset(o, 3, 0)), d, n - 1, Rope(Offset(o, 4, 2), Offset(o, 4, 1)));
    StepFirst(Rope(Offset(o, 4, 2), Offset(o, 4, 1)), d, n - 1 - 1, Rope(Offset(o, 4, 3), Offset(o, 4, 2)));
    StepFirst(Rope(Offset(o, 4, 3), Offset(o, 4, 2)), d, n - 1 - 1 - 1, Rope(Offset(o, 4, 4), Offset(o, 4, 3)));
    NoSteps(Rope(Offset(o, 4, 4), Offset(o, 4, 3)), d, n - 1 - 1 - 1 - 1);
  }

  lemma ExampleLeft3(o: Pos, d: Pos, n: nat)
    requires d == Pos(-1, 0) && n == 3
    ensures Final(Rope(Offset(o, 4, 4), Offset(o, 4, 3)), Repeat(d, n)) == Rope(Offset(o, 1, 4), Offset(o, 2, 4))
    ensures Trail(Rope(Offset(o, 4, 4), Offset(o, 4, 3)), Repeat(d, n)) == [Offset(o, 4, 3), Offset(o, 3, 4), Offset(o, 2, 4)]
  {
    StepFirst(Rope(Offset(o, 4, 4), Offset(o, 4, 3)), d, n, Rope(Offset(o, 3, 4), Offset(o, 4, 3)));
    StepFirst(Rope(Offset(o, 3, 4), Offset(o, 4, 3)), d, n - 1, Rope(Offset(o, 2, 4), Offset(o, 3, 4)));
    StepFirst(Rope(Offset(o, 2, 4), Offset(o, 3, 4)), d, n - 1 - 1, Rope(Offset(o, 1, 4), Offset(o, 2, 4)));
    NoSteps(Rope(Offset(o, 1, 4), Offset(o, 2, 4)), d, n - 1 - 1 - 1);
  }

  lemma ExampleDown1(o: Pos, d: Pos, n: nat)
    requires d == Pos(0, -1) && n == 1
    ensures Final(Rope(Offset(o, 1, 4), Offset(o, 2, 4)), Repeat(d, n)) == Rope(Offset(o, 1, 3), Offset(o, 2, 4))
    ensures Trail(Rope(Offset(o, 1, 4), Offset(o, 2, 4)), Repeat(d, n)) == [Offset(o, 2, 4)]
  {
    StepFirst(Rope(Offset(o, 1, 4), Offset(o, 2, 4)), d, n, Rope(Offset(o, 1, 3), Offset(o, 2, 4)));
    NoSteps(Rope(Offset(o, 1, 3), Offset(o, 2, 4)), d, n - 1);
  }

  lemma ExampleRight4Again(o: Pos, d: Pos, n: nat)
    requires d == Pos(1, 0) && n == 4
    ensures Final(Rope(Offset(o, 1, 3), Offset(o, 2, 4)), Repeat(d, n)) == Rope(Offset(o, 5, 3), Offset(o, 4, 3))
    ensures Trail(Rope(Offset(o, 1, 3), Offset(o, 2, 4)), Repeat(d, n)) == [Offset(o, 2, 4), Offset(o, 2, 4), Offset(o, 3, 3), Offset(o, 4, 3)]
  {
    StepFirst(Rope(Offset(o, 1, 3), Offset(o, 2, 4)), d, n, Rope(Offset(o, 2, 3), Offset(o, 2, 4)));
    StepFirst(Rope(Offset(o, 2, 3), Offset(o, 2, 4)), d, n - 1, Rope(Offset(o, 3, 3), Offset(o, 2, 4)));
    StepFirst(Rope(Offset(o, 3, 3), Offset(o, 2, 4)), d, n - 1 - 1, Rope(Offset(o, 4, 3), Offset(o, 3, 3)));
    StepFirst(Rope(Offset(o, 4, 3), Offset(o, 3, 3)), d, n - 1 - 1 - 1, Rope(Offset(o, 5, 3), Offset(o, 4, 3)));
    NoSteps(Rope(Offset(o, 5, 3), Offset(o, 4, 3)), d, n - 1 - 1 - 1 - 1);
  }

  lemma ExampleDown1Again(o: Pos, d: Pos, n: nat)
    requires d == Pos(0, -1) && n == 1
    ensures Final(Rope(Offset(o, 5, 3), Offset(o, 4, 3)), Repeat(d, n)) == Rope(Offset(o, 5, 2), Offset(o, 4, 3))
    ensures Trail(Rope(Offset(o, 5, 3), Offset(o, 4, 3)), Repeat(d, n)) == [Offset(o, 4, 3)]
  {
    StepFirst(Rope(Offset(o, 5, 3), Offset(o, 4, 3)), d, n, Rope(Offset(o, 5, 2), Offset(o, 4, 3)));
    NoSteps(Rope(Offset(o, 5, 2), Offset(o, 4, 3)), d, n - 1);
  }

  lemma ExampleLeft5(o: Pos, d: Pos, n: nat)
    requires d == Pos(-1, 0) && n == 5
    ensures Final(Rope(Offset(o, 5, 2), Offset(o, 4, 3)), Repeat(d, n)) == Rope(Offset(o, 0, 2), Offset(o, 1, 2))
    ensures Trail(Rope(Offset(o, 5, 2), Offset(o, 4, 3)), Repeat(d, n)) == [Offset(o, 4, 3), Offset(o, 4, 3), Offset(o, 3, 2), Offset(o, 2, 2), Offset(o, 1, 2)]
  {
    StepFirst(Rope(Offset(o, 5, 2), Offset(o, 4, 3)), d, n, Rope(Offset(o, 4, 2), Offset(o, 4, 3)));
    StepFirst(Rope(Offset(o, 4, 2), Offset(o, 4, 3)), d, n - 1, Rope(Offset(o, 3, 2), Offset(o, 4, 3)));
    StepFirst(Rope(Offset(o, 3, 2), Offset(o, 4, 3)), d, n - 1 - 1, Rope(Offset(o, 2, 2), Offset(o, 3, 2)));
    StepFirst(Rope(Offset(o, 2, 2), Offset(o, 3, 2)), d, n - 1 - 1 - 1, Rope(Offset(o, 1, 2), Offset(o, 2, 2)));
    StepFirst(Rope(Offset(o, 1, 2), Offset(o, 2, 2)), d, n - 1 - 1 - 1 - 1, Rope(Offset(o, 0, 2), Offset(o, 1, 2)));
    NoSteps(Rope(Offset(o, 0, 2), Offset(o, 1, 2)), d, n - 1 - 1 - 1 - 1 - 1);
  }

  lemma ExampleRight2(o: Pos, d: Pos, n: nat)
    requires d == Pos(1, 0) && n == 2
    ensures Final(Rope(Offset(o, 0, 2), Offset(o, 1, 2)), Repeat(d, n)) == Rope(Offset(o, 2, 2), Offset(o, 1, 2))
    ensures Trail(Rope(Offset(o, 0, 2), Offset(o, 1, 2)), Repeat(d, n)) == [Offset(o, 1, 2), Offset(o, 1, 2)]
  {
    StepFirst(Rope(Offset(o, 0, 2), Offset(o, 1, 2)), d, n, Rope(Offset(o, 1, 2), Offset(o, 1, 2)));
    StepFirst(Rope(Offset(o, 1, 2), Offset(o, 1, 2)), d, n - 1, Rope(Offset(o, 2, 2), Offset(o, 1, 2)));
    NoSteps(Rope(Offset(o, 2, 2), Offset(o, 1, 2)), d, n - 1 - 1);
  }

  /** The first two motions: the head ends at (4, 4), the tail at (4, 3). */
  lemma ExampleAfter2(o: Pos, ms: seq<Motion>)
    requires ms == ExampleMotions()
    ensures Final(Origin(o), Steps(ms[..2])) == Rope(Offset(o, 4, 4), Offset(o, 4, 3))
    ensures Trail(Origin(o), Steps(ms[..2]))
         == [Offset(o, 0, 0), Offset(o, 1, 0), Offset(o, 2, 0), Offset(o, 3, 0),
             Offset(o, 3, 0), Offset(o, 4, 1), Offset(o, 4, 2), Offset(o, 4, 3)]
  {
    assert ms[..0] == [];
    MotionFrom(Origin(o), ms, 0);
    ExampleRight4(o, Direction(ms[0]), ms[0].amount);
    MotionFrom(Origin(o), ms, 1);
    ExampleUp4(o, Direction(ms[1]), ms[1].amount);
  }

  /** The first four motions: the head ends at (1, 3), the tail at (2, 4). */
  lemma ExampleAfter4(o: Pos, ms: seq<Motion>)
    requires ms == ExampleMotions()
    ensures Final(Origin(o), Steps(ms[..4])) == Rope(Offset(o, 1, 3), Offset(o, 2, 4))
    ensures Trail(Origin(o), Steps(ms[..4]))
         == [Offset(o, 0, 0), Offset(o, 1, 0), Offset(o, 2, 0), Offset(o, 3, 0),
             Offset(o, 3, 0), Offset(o, 4, 1), Offset(o, 4, 2), Offset(o, 4, 3),
             Offset(o, 4, 3), Offset(o, 3, 4), Offset(o, 2, 4), Offset(o, 2, 4)]
  {
    ExampleAfter2(o, ms);
    MotionFrom(Origin(o), ms, 2);
    ExampleLeft3(o, Direction(ms[2]), ms[2].amount);
    MotionFrom(Origin(o), ms, 3);
    ExampleDown1(o, Direction(ms[3]), ms[3].amount);
  }

  /** The first six motions: the head ends at (5, 2), the tail at (4, 3). */
  lemma ExampleAfter6(o: Pos, ms: seq<Motion>)
    requires ms == ExampleMotions()
    ensures Final(Origin(o), Steps(ms[..6])) == Rope(Offset(o, 5, 2), Offset(o, 4, 3))
    ensures Trail(Origin(o), Steps(ms[..6]))
         == [Offset(o, 0, 0), Offset(o, 1, 0), Offset(o, 2, 0), Offset(o, 3, 0),
             Offset(o, 3, 0), Offset(o, 4, 1), Offset(o, 4, 2), Offset(o, 4, 3),
             Offset(o, 4, 3), Offset(o, 3, 4), Offset(o, 2, 4), Offset(o, 2, 4),
             Offset(o, 2, 4), Offset(o, 2, 4), Offset(o, 3, 3), Offset(o, 4, 3),
             Offset(o, 4, 3)]
  {
    ExampleAfter4(o, ms);
    MotionFrom(Origin(o), ms, 4);
    ExampleRight4Again(o, Direction(ms[4]), ms[4].amount);
    MotionFrom(Origin(o), ms, 5);
    ExampleDown1Again(o, Direction(ms[5]), ms[5].amount);
  }

  /** The first eight motions: the head ends at (2, 2), the tail at (1, 2). */
  lemma ExampleAfter8(o: Pos, ms: seq<Motion>)
    requires ms == ExampleMotions()
    ensures Final(Origin(o), Steps(ms[..8])) == Rope(Offset(o, 2, 2), Offset(o, 1, 2))
    ensures Trail(Origin(o), Steps(ms[..8]))
         == [Offset(o, 0, 0), Offset(o, 1, 0), Offset(o, 2, 0), Offset(o, 3, 0),
             Offset(o, 3, 0), Offset(o, 4, 1), Offset(o, 4, 2), Offset(o, 4, 3),
             Offset(o, 4, 3), Offset(o, 3, 4), Offset(o, 2, 4), Offset(o, 2, 4),
             Offset(o, 2, 4), Offset(o, 2, 4), Offset(o, 3, 3), Offset(o, 4, 3),
             Offset(o, 4, 3), Offset(o, 4, 3), Offset(o, 4, 3), Offset(o, 3, 2),
             Offset(o, 2, 2), Offset(o, 1, 2), Offset(o, 1, 2), Offset(o, 1, 2)]
  {
    ExampleAfter6(o, ms);
    MotionFrom(Origin(o), ms, 6);
    ExampleLeft5(o, Direction(ms[6]), ms[6].amount);
    MotionFrom(Origin(o), ms, 7);
    ExampleRight2(o, Direction(ms[7]), ms[7].amount);
  }

  /** Putting the start in front of a trail adds it to the positions visited. */
  lemma DistinctCons(start: Pos, trail: seq<Pos>)
    ensures Distinct([start] + trail) == {start} + Distinct(trail)
  {
    assert forall p :: p in [start] + trail <==> p == start || p in trail;
  }

  /** The example's trail visits these positions. */
  lemma ExampleDistinct(o: Pos, trail: seq<Pos>)
    requires trail
         == [Offset(o, 0, 0), Offset(o, 1, 0), Offset(o, 2, 0), Offset(o, 3, 0),
             Offset(o, 3, 0), Offset(o, 4, 1), Offset(o, 4, 2), Offset(o, 4, 3),
             Offset(o, 4, 3), Offset(o, 3, 4), Offset(o, 2, 4), Offset(o, 2, 4),
             Offset(o, 2, 4), Offset(o, 2, 4), Offset(o, 3, 3), Offset(o, 4, 3),
             Offset(o, 4, 3), Offset(o, 4, 3), Offset(o, 4, 3), Offset(o, 3, 2),
             Offset(o, 2, 2), Offset(o, 1, 2), Offset(o, 1, 2), Offset(o, 1, 2)]
    ensures Distinct(trail) == ExampleVisited(o)
  {
  }

  /** The positions the example's tail visits. */
  function ExampleVisited(o: Pos): set<Pos> {
    {Offset(o, 0, 0), Offset(o, 1, 0), Offset(o, 2, 0), Offset(o, 3, 0), Offset(o, 4, 1), Offset(o, 4, 2), Offset(o, 4, 3),
     Offset(o, 3, 4), Offset(o, 2, 4), Offset(o, 3, 3), Offset(o, 3, 2), Offset(o, 2, 2), Offset(o, 1, 2)}
  }

  /** Those positions are 13, the start among them. */
  lemma ExampleCount(o: Pos)
    ensures Offset(o, 0, 0) in ExampleVisited(o) && |ExampleVisited(o)| == 13
  {
  }

  /** A position already visited adds nothing. */
  lemma Revisit(p: Pos, visited: set<Pos>)
    requires p in visited
    ensures {p} + visited == visited
  {
  }

  /** The tail visits 13 distinct positions, the start included. */
  lemma ExampleVisits(o: Pos, ms: seq<Motion>)
    requires ms == ExampleMotions()
    ensures |Distinct([Origin(o).tail] + Trail(Origin(o), Steps(ms)))| == 13
  {
    ExampleAfter8(o, ms);
    assert ms[..8] == ms;
    var trail := Trail(Origin(o), Steps(ms));
    DistinctCons(Origin(o).tail, trail);
    ExampleDistinct(o, trail);
    ExampleCount(o);
    Revisit(Origin(o).tail, ExampleVisited(o));
  }

  /** `test_part_one`: the example's motions, one per line, give 13. */
  lemma ExampleAnswer(ms: seq<Motion>)
    requires ms == ExampleMotions()
    ensures Answer(FormatMotions(ms)) == Ok(13)
  {
    MotionsRoundTrip(ms, "");
    assert FormatMotions(ms) + "" == FormatMotions(ms);
    MotionsAreSteps(ms);
    var o := Pos(0, 0);
    assert Origin(o) == Start;
    ExampleVisits(o, ms);
  }
}
