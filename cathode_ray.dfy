/** Cathode-ray tube (src/bin/10.rs): a CPU with one register `X` runs
    `noop` (one cycle) and `addx d` (two cycles, then `X` grows by `d`).
    Part one adds up the signal strengths `cycle * X` seen during cycles
    20, 60, 100, 140, 180 and 220. */
module CathodeRay {
  import opened Wrappers
  import opened Parsing

  datatype Instruction = NoOp | AddX(delta: int)

  datatype Error = ParseFailed  // `parse_program` reports an error

  // ---------------------------------------------------------------------------
  // Parsing

  /** `parse_noop`. */
  function ParseNoop(s: string): (r: Option<Parsed<Instruction>>)
    ensures r.Some? ==> |r.value.rest| < |s|
  {
    var rest :- Tag("noop", s);
    Some(Parsed(NoOp, rest))
  }

  /** `parse_addx`: `addx `, then an `i32`. */
  function ParseAddx(s: string): (r: Option<Parsed<Instruction>>)
    ensures r.Some? ==> |r.value.rest| < |s|
  {
    var rest :- Tag("addx ", s);
    var num :- I32(rest);
    Some(Parsed(AddX(num.value), num.rest))
  }

  /** `alt((parse_noop, parse_addx))`. */
  function ParseInstruction(s: string): (r: Option<Parsed<Instruction>>)
    ensures r.Some? ==> |r.value.rest| < |s|
  {
    var noop := ParseNoop(s);
    if noop.Some? then noop else ParseAddx(s)
  }

  lemma InstructionProgress()
    ensures NeverGrows(ParseInstruction) && SkipperConsumes(Newline)
  {
  }

  /** `parse_program`: instructions separated by line breaks, at least one. */
  function ParseProgram(s: string): (r: Option<Parsed<seq<Instruction>>>)
    ensures r.Some? ==> |r.value.value| >= 1
  {
    InstructionProgress();
    SeparatedList1(ParseInstruction, Newline, s)
  }

  function FormatInstruction(i: Instruction): string {
    match i
    case NoOp => "noop"
    case AddX(d) => "addx " + IntToString(d)
  }

  /** Reading an instruction's text back gives the instruction. */
  lemma InstructionRoundTrip(i: Instruction, rest: string)
    requires i.AddX? ==> I32_MIN <= i.delta <= I32_MAX
    requires NoDigitAhead(rest)
    ensures ParseInstruction(FormatInstruction(i) + rest) == Some(Parsed(i, rest))
  {
    var s := FormatInstruction(i) + rest;
    match i
    case NoOp =>
      TagOfConcat("noop", rest);
    case AddX(d) =>
      assert s == "addx " + (IntToString(d) + rest);
      assert !("noop" <= s) by {
        assert s[0] == 'a';
      }
      TagOfConcat("addx ", IntToString(d) + rest);
      I32RoundTrip(d, rest);
  }

  // ---------------------------------------------------------------------------
  // The interesting cycles

  predicate Interesting(c: int) {
    c == 20 || c == 60 || c == 100 || c == 140 || c == 180 || c == 220
  }

  /** The interesting cycles from `lo` up to but excluding `hi`, in
      increasing order. */
  function InterestingIn(lo: int, hi: int): seq<int>
    decreases hi - lo
  {
    if hi <= lo then []
    else InterestingIn(lo, hi - 1) + (if Interesting(hi - 1) then [hi - 1] else [])
  }

  /** `InterestingIn` lists exactly the interesting cycles of the range,
      each once and in increasing order. */
  lemma {:induction false} InterestingInLists(lo: int, hi: int)
    ensures forall c :: c in InterestingIn(lo, hi) <==> lo <= c < hi && Interesting(c)
    ensures forall j, k :: 0 <= j < k < |InterestingIn(lo, hi)| ==> InterestingIn(lo, hi)[j] < InterestingIn(lo, hi)[k]
    ensures forall j :: 0 <= j < |InterestingIn(lo, hi)| ==> lo <= InterestingIn(lo, hi)[j] < hi
    decreases hi - lo
  {
    if lo < hi {
      InterestingInLists(lo, hi - 1);
    }
  }

  /** Splitting a range of cycles splits its interesting cycles. */
  lemma {:induction false} InterestingSplit(lo: int, mid: int, hi: int)
    requires lo <= mid <= hi
    ensures InterestingIn(lo, hi) == InterestingIn(lo, mid) + InterestingIn(mid, hi)
    decreases hi - mid
  {
    if mid < hi {
      InterestingSplit(lo, mid, hi - 1);
    }
  }

  // ---------------------------------------------------------------------------
  // What the loop records

  function Cycles(i: Instruction): nat {
    match i
    case NoOp => 1
    case AddX(_) => 2
  }

  function Delta(i: Instruction): int {
    match i
    case NoOp => 0
    case AddX(d) => d
  }

  /** The inner loop: `c * x` for each interesting `c` with `lo <= c < hi`. */
  function MarksIn(lo: int, hi: int, x: int): seq<int>
    decreases hi - lo
  {
    if hi <= lo then []
    else MarksIn(lo, hi - 1, x) + (if Interesting(hi - 1) then [(hi - 1) * x] else [])
  }

  /** The outer loop, from cycle `cycle` with `X` equal to `x`. */
  function Record(program: seq<Instruction>, cycle: int, x: int): seq<int> {
    if program == [] then []
    else
      var n := Cycles(program[0]);
      MarksIn(cycle, cycle + n, x) + Record(program[1..], cycle + n, x + Delta(program[0]))
  }

  function TotalCycles(program: seq<Instruction>): nat {
    if program == [] then 0 else Cycles(program[0]) + TotalCycles(program[1..])
  }

  function TotalDelta(program: seq<Instruction>): int {
    if program == [] then 0 else Delta(program[0]) + TotalDelta(program[1..])
  }

  /** `Record` runs the first instruction, then the rest. */
  lemma RecordUnfold(program: seq<Instruction>, cycle: int, x: int)
    requires program != []
    ensures Record(program, cycle, x)
            == MarksIn(cycle, cycle + Cycles(program[0]), x)
               + Record(program[1..], cycle + Cycles(program[0]), x + Delta(program[0]))
  {
  }

  // ---------------------------------------------------------------------------
  // What the recorded values mean

  /** The value of `X` during cycle `c`, when the program starts at cycle
      `cycle` with `X` equal to `x`: an instruction's change shows only in the
      cycles after its last one. */
  function XDuring(program: seq<Instruction>, cycle: int, x: int, c: int): int {
    if program == [] || c < cycle + Cycles(program[0]) then x
    else XDuring(program[1..], cycle + Cycles(program[0]), x + Delta(program[0]), c)
  }

  /** `c * X` during `c`, for each of the cycles `cs`. */
  function Strengths(cs: seq<int>, program: seq<Instruction>, cycle: int, x: int): seq<int> {
    if cs == [] then [] else [cs[0] * XDuring(program, cycle, x, cs[0])] + Strengths(cs[1..], program, cycle, x)
  }

  lemma {:induction false} StrengthsConcat(a: seq<int>, b: seq<int>, program: seq<Instruction>, cycle: int, x: int)
    ensures Strengths(a + b, program, cycle, x) == Strengths(a, program, cycle, x) + Strengths(b, program, cycle, x)
    decreases |a|
  {
    if a == [] {
      assert a + b == b;
    } else {
      assert (a + b)[1..] == a[1..] + b;
      StrengthsConcat(a[1..], b, program, cycle, x);
    }
  }

  /** During the first instruction `X` has its starting value. */
  lemma {:induction false} MarksAreStrengths(program: seq<Instruction>, cycle: int, x: int, hi: int)
    requires program != [] && cycle <= hi <= cycle + Cycles(program[0])
    ensures MarksIn(cycle, hi, x) == Strengths(InterestingIn(cycle, hi), program, cycle, x)
    decreases hi - cycle
  {
    if cycle < hi {
      MarksAreStrengths(program, cycle, x, hi - 1);
      var last := if Interesting(hi - 1) then [hi - 1] else [];
      StrengthsConcat(InterestingIn(cycle, hi - 1), last, program, cycle, x);
    }
  }

  /** After the first instruction, the rest of the program sees the same `X`. */
  lemma {:induction false} StrengthsAfterFirst(cs: seq<int>, program: seq<Instruction>, cycle: int, x: int)
    requires program != []
    requires forall j :: 0 <= j < |cs| ==> cs[j] >= cycle + Cycles(program[0])
    ensures Strengths(cs, program, cycle, x)
            == Strengths(cs, program[1..], cycle + Cycles(program[0]), x + Delta(program[0]))
    decreases |cs|
  {
    if cs != [] {
      StrengthsAfterFirst(cs[1..], program, cycle, x);
    }
  }

  /** The interesting cycles after the first instruction see what the rest
      of the program sees. */
  lemma LateStrengths(program: seq<Instruction>, cycle: int, x: int, end: int)
    requires program != [] && cycle + Cycles(program[0]) <= end
    ensures var mid := cycle + Cycles(program[0]);
      Strengths(InterestingIn(mid, end), program, cycle, x)
      == Strengths(InterestingIn(mid, end), program[1..], mid, x + Delta(program[0]))
  {
    InterestingInLists(cycle + Cycles(program[0]), end);
    StrengthsAfterFirst(InterestingIn(cycle + Cycles(program[0]), end), program, cycle, x);
  }

  /** The recorded signal strengths are exactly `c * X` during `c`, for every
      interesting cycle `c` the program runs through, in increasing order and
      each once. */
  lemma {:induction false} RecordIsStrengths(program: seq<Instruction>, cycle: int, x: int)
    ensures Record(program, cycle, x)
            == Strengths(InterestingIn(cycle, cycle + TotalCycles(program)), program, cycle, x)
    decreases |program|
  {
    if program != [] {
      var rest := program[1..];
      var mid, x' := cycle + Cycles(program[0]), x + Delta(program[0]);
      var end := cycle + TotalCycles(program);
      var early, late := InterestingIn(cycle, mid), InterestingIn(mid, end);
      calc {
        Record(program, cycle, x);
        MarksIn(cycle, mid, x) + Record(rest, mid, x');
        { MarksAreStrengths(program, cycle, x, mid);
          assert mid + TotalCycles(rest) == end;
          RecordIsStrengths(rest, mid, x'); }
        Strengths(early, program, cycle, x) + Strengths(late, rest, mid, x');
        { LateStrengths(program, cycle, x, end); }
        Strengths(early, program, cycle, x) + Strengths(late, program, cycle, x);
        { StrengthsConcat(early, late, program, cycle, x); }
        Strengths(early + late, program, cycle, x);
        { InterestingSplit(cycle, mid, end); }
        Strengths(InterestingIn(cycle, end), program, cycle, x);
      }
    }
  }

  // ---------------------------------------------------------------------------
  // Part one

  /** The inner loop of `part_one`: every interesting cycle from `lo` up to
      `hi` adds its signal strength with `X` equal to `x`. */
  method MarkCycles(strengths: seq<int>, lo: int, hi: int, x: int) returns (marked: seq<int>)
    requires lo <= hi
    ensures marked == strengths + MarksIn(lo, hi, x)
  {
    marked := strengths;
    for c := lo to hi
      invariant marked == strengths + MarksIn(lo, c, x)
    {
      if Interesting(c) {
        marked := marked + [c * x];
      }
    }
  }

  /** One pass of the outer loop, in terms of what was recorded before it. */
  lemma RecordStep(program: seq<Instruction>, k: nat, cycle: int, x: int, before: seq<int>)
    requires k < |program|
    ensures before + Record(program[k..], cycle, x)
         == (before + MarksIn(cycle, cycle + Cycles(program[k]), x))
            + Record(program[k + 1..], cycle + Cycles(program[k]), x + Delta(program[k]))
  {
    RecordUnfold(program[k..], cycle, x);
    assert program[k..][1..] == program[k + 1..];
  }

  /** The loop of `part_one`: `reg_x` and `cycle` start at 1; each
      instruction records the interesting cycles it covers with the value of
      `reg_x` from before it, then moves `cycle` on and adds its delta. */
  method Simulate(program: seq<Instruction>) returns (signalStrengths: seq<int>)
    ensures signalStrengths == Record(program, 1, 1)
  {
    var regX := 1;
    var cycle := 1;
    signalStrengths := [];
    for k := 0 to |program|
      invariant Record(program, 1, 1) == signalStrengths + Record(program[k..], cycle, regX)
    {
      var i := program[k];
      var cycleInc, regXDelta := Cycles(i), Delta(i);
      var cycleNext := cycle + cycleInc;
      ghost var before := signalStrengths;
      signalStrengths := MarkCycles(signalStrengths, cycle, cycleNext, regX);
      RecordStep(program, k, cycle, regX, before);
      assert Record(program, 1, 1) == signalStrengths + Record(program[k + 1..], cycleNext, regX + regXDelta);
      cycle := cycleNext;
      regX := regX + regXDelta;
    }
  }

  function Sum(xs: seq<int>): int {
    if xs == [] then 0 else xs[0] + Sum(xs[1..])
  }

  const TwoToThe32: int := 0x1_0000_0000

  /** The `i32` sum cast `as u32`: the same bits read as unsigned. */
  function AsU32(v: int): (r: nat)
    ensures r < TwoToThe32 && (r - v) % TwoToThe32 == 0
    ensures 0 <= v < TwoToThe32 ==> r == v
  {
    v % TwoToThe32
  }

  /** `part_one`: a program that does not parse is the `expect` panic;
      otherwise the sum of `c * X` over the interesting cycles the program
      runs through, read as a `u32`. */
  method PartOne(input: string) returns (r: Result<nat, Error>)
    ensures ParseProgram(input).None? ==> r == Err(ParseFailed)
    ensures ParseProgram(input).Some? ==>
              var program := ParseProgram(input).value.value;
              r == Ok(AsU32(Sum(Strengths(InterestingIn(1, 1 + TotalCycles(program)), program, 1, 1))))
  {
    var parsed := ParseProgram(input);
    if parsed.None? {
      return Err(ParseFailed);
    }
    var program := parsed.value.value;
    var signalStrengths := Simulate(program);
    RecordIsStrengths(program, 1, 1);
    return Ok(AsU32(Sum(signalStrengths)));
  }

  // ---------------------------------------------------------------------------
  // Examples

  /** The small program `noop`, `addx 3`, `addx -5`: `X` is 1 during cycles
      1 to 3, 4 during cycles 4 and 5, and -1 afterwards. */
  lemma SmallProgram()
    ensures var p := [NoOp, AddX(3), AddX(-5)];
      && XDuring(p, 1, 1, 1) == 1 && XDuring(p, 1, 1, 3) == 1
      && XDuring(p, 1, 1, 4) == 4 && XDuring(p, 1, 1, 5) == 4
      && XDuring(p, 1, 1, 6) == -1 && TotalCycles(p) == 5
  {
    var p := [NoOp, AddX(3), AddX(-5)];
    assert p[1..] == [AddX(3), AddX(-5)] && p[1..][1..] == [AddX(-5)] && p[1..][1..][1..] == [];
    assert XDuring([AddX(-5)], 4, 4, 6) == XDuring([], 6, -1, 6) == -1;
    assert XDuring(p[1..], 2, 1, 6) == XDuring([AddX(-5)], 4, 4, 6);
    assert XDuring(p[1..], 2, 1, 4) == XDuring([AddX(-5)], 4, 4, 4) == 4;
  }
}
