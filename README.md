# Advent of Code 2022 solvers, modelled in Dafny

A model of the puzzle solvers of an Advent of Code 2022 repository written in
Rust, one Dafny module per solver, together with proofs of what each one
computes. Every solver reads a puzzle text, parses it with `nom`-style
combinators, and computes one number or string per part.

- `monkey_math.dfy` (`MonkeyMath`, src/bin/21.rs): monkeys either yell a
  constant or combine two other monkeys' numbers with `+ - * /`. Part one
  evaluates `root`. Part two removes `humn`, evaluates root's resolvable side
  and inverts the operations on the other side down to `humn`. The headline
  results are `TrySolveAgrees` (the partial evaluator agrees with the full
  one), `TrySolveUnresolvedIffReaches` (a name is unresolved exactly when it
  depends on `humn`) and `SolveSecondBalances`/`RootBalances` (when every
  inversion on the path is exact, the value found for `humn` balances root).
- `distress_signal.dfy` (`DistressSignal`, src/bin/13.rs): nested packet
  lists compared element by element; part one sums the indices of the pairs
  in the right order.
- `supply_stacks.dfy` (`SupplyStacks`, src/bin/05.rs): crates moved between
  stacks held in an array, reversed (part one) or in order (part two).
- `rope_bridge.dfy` (`RopeBridge`, src/bin/09.rs): a two-knot rope whose
  tail chases its head; the knots are objects updated in place.
- `no_space.dfy` (`NoSpace`, src/bin/07.rs): a shell transcript replayed into
  directory listings, recursive directory sizes, and the two answers.
- `camp_cleanup.dfy` (`CampCleanup`, src/bin/04.rs): pairs of section ranges,
  containment and overlap.
- `tuning_trouble.dfy` (`TuningTrouble`, src/bin/06.rs): the first window of
  4 (part one) or 14 (part two) different characters.
- `cathode_ray.dfy` (`CathodeRay`, src/bin/10.rs): a one-register CPU and its
  signal strengths at cycles 20, 60, ..., 220.
- `calorie_counting.dfy` (`CalorieCounting`, src/bin/01.rs): group sums, the
  largest, and the sum of the three largest.
- `rucksack.dfy` (`Rucksack`, src/bin/03.rs): the item priority function.
- `beacon_exclusion.dfy` (`BeaconExclusion`, src/bin/15.rs): sensors with
  taxicab exclusion zones and the points of one row that cannot hold a beacon.
- `parsing.dfy` (`Parsing`) and `wrappers.dfy` (`Wrappers`): the parser
  combinators, number readers and string splitting the solvers use, and the
  `Option`/`Result` types.

The source's panics (`expect`, `panic!`, out-of-bounds indexing, a `u32`
subtraction going below zero) become error values in a `Result` wherever an
input can reach them, and only there. Integer underflow panics as in a
debug build. Two of them are preconditions instead: the `usize`
length underflow in src/bin/06.rs and the distance panic of `tail_move` in
src/bin/09.rs. The second is proved unreachable from `part_one`
(`RopeBridge.TailTouchesHead`, `RopeBridge.FollowMoves`). Loops that change
state in the source are methods with loop invariants, proved against the
functions that define what they compute. Objects that the source updates in
place are a class (`RopeBridge.Knot`) or an array (`SupplyStacks`' stacks).

In src/bin/21.rs, inverting `*` and `/` uses Rust's truncating integer
division, and an inexact step is not reported. The model follows the code:
`MonkeyMath.TruncatingInversionIsInexact` shows an inexact step, and the
balance results assume exact inversions. The source also has no guard
against a cyclic monkey graph or a cyclic directory listing. The evaluation
functions therefore carry a ghost depth bound that their callers must
establish; `ClosedIsFinite` and `RelativeListingsTerminate` show when they
can.

## Model

| member | source | states |
|---|---|---|
| MonkeyMath.OperatorOf | src/bin/21.rs:36-46 | the operator characters are exactly `+ - * /`, and each reads back as the operator written with it |
| MonkeyMath.OperatorCharRoundTrip | src/bin/21.rs:40-46 | every operator, written as its character, reads back as itself |
| MonkeyMath.ParseNameColon | src/bin/21.rs:31 | `pair(alpha1, char(':'))` consumes input and yields an alphabetic name |
| MonkeyMath.ParseOperatorMonkey | src/bin/21.rs:30-59 | `parse_operator_monkey` consumes input and yields an operation monkey |
| MonkeyMath.ParseConstMonkey | src/bin/21.rs:61-67 | `parse_const_monkey` consumes input and yields a constant within the `i32` range |
| MonkeyMath.ParseMonkey | src/bin/21.rs:71 | `alt((parse_operator_monkey, parse_const_monkey))` consumes input whenever it succeeds |
| MonkeyMath.ParseOperands | src/bin/21.rs:33-38 | `first op second` with blanks between consumes input whenever it parses |
| MonkeyMath.ParsersProgress | src/bin/21.rs:69-72 | the monkey parser and the line break make the progress `separated_list0` needs |
| MonkeyMath.ParseMonkeyRoundTrip | src/bin/21.rs:30-67 | a monkey line written out (alphabetic names, `i32` constant) reads back as the same name and monkey, stopping at the line break |
| MonkeyMath.NameColonRoundTrip | src/bin/21.rs:31 | an alphabetic name followed by `:` reads back as that name |
| MonkeyMath.BlankNameRoundTrip | src/bin/21.rs:33-34 | a blank then an alphabetic name reads back as that name |
| MonkeyMath.BlankOperatorRoundTrip | src/bin/21.rs:35-36 | a blank then an operator character reads back as that operator |
| MonkeyMath.OperandsRoundTrip | src/bin/21.rs:33-38 | `first op second` with blanks between reads back as the triple |
| MonkeyMath.BlankI32RoundTrip | src/bin/21.rs:64 | a blank then an `i32` in decimal reads back as the number, and is not taken for a name |
| MonkeyMath.ConstLineRoundTrip | src/bin/21.rs:61-67 | a constant monkey's line reads back through `alt` after the operation parser fails on it |
| MonkeyMath.OperationLineRoundTrip | src/bin/21.rs:30-59 | an operation monkey's line reads back through `alt` |
| MonkeyMath.GraphKeys | src/bin/21.rs:73-76 | the map built by inserting the parsed pairs has exactly the parsed names as keys |
| MonkeyMath.GraphLastWins | src/bin/21.rs:74-75 | for a name listed more than once, `HashMap::insert` keeps the last monkey listed |
| MonkeyMath.GraphOfPrefix | src/bin/21.rs:74-75 | each loop step inserts one more pair into the map |
| MonkeyMath.ParseMonkeys | src/bin/21.rs:69-79 | the loop of `parse_monkeys` builds the map of the parsed list and returns the unparsed rest |
| MonkeyMath.TruncDiv | src/bin/21.rs:93 | Rust's integer `/`: the remainder is smaller than the divisor and has the dividend's sign (rounding toward zero) |
| MonkeyMath.TruncDivOfMultiple | src/bin/21.rs:93 | dividing an exact multiple gives the factor back |
| MonkeyMath.Apply | src/bin/21.rs:89-94 | an operation fails exactly when it divides by zero, and then with a division-by-zero error |
| MonkeyMath.SolveFirst | src/bin/21.rs:81-97 | `solve_first` fails only by dividing by zero or on a name missing from the map (the `expect` panic) |
| MonkeyMath.TrySolve | src/bin/21.rs:99-124 | `try_solve` fails only by dividing by zero; a missing name gives `None` |
| MonkeyMath.TrySolveAgrees | src/bin/21.rs:81-124 | `try_solve` resolves a name to `v` exactly when `solve_first` yields `v` |
| MonkeyMath.TrySolveUnresolvedIffReaches | src/bin/21.rs:99-124 | with all other names present, `try_solve` gives `None` exactly when the name depends on the removed one |
| MonkeyMath.ClosedIsFinite | src/bin/21.rs:81-97 | a graph where every reachable name is present has a finite evaluation |
| MonkeyMath.RemoveLeavesClosedExcept | src/bin/21.rs:188 | removing `humn` keeps every other reachable name present and the evaluation finite |
| MonkeyMath.FiniteSubstitute | src/bin/21.rs:188 | giving the removed name a constant keeps the evaluation finite |
| MonkeyMath.ResolvedIgnoresSubstitution | src/bin/21.rs:99-124 | a value `try_solve` resolves without the removed name is unchanged once that name gets any constant |
| MonkeyMath.Inverse | src/bin/21.rs:138-152 | undoing an operation fails only on a zero divisor |
| MonkeyMath.InversionExactWhenDivisible | src/bin/21.rs:138-152 | when the divisions involved are exact, the undone operation, redone, gives back the expected value; for `*` the converse also holds |
| MonkeyMath.MultiplyInversion | src/bin/21.rs:141-150 | undoing `*` is exact exactly when the known operand is non-zero and divides the expected value |
| MonkeyMath.DivideInversion | src/bin/21.rs:142-151 | undoing `/` is exact when the divisions involved are |
| MonkeyMath.TruncatingInversionIsInexact | src/bin/21.rs:141 | `expected / first_res` truncates: with 2 known and 7 expected it yields 3, and 2 * 3 is not 7 |
| MonkeyMath.SolveSecond | src/bin/21.rs:126-163 | when `solve_second` succeeds, the name really depends on the missing one (`try_solve` gives `None`); its panics are the constant-on-path and both/neither-resolved cases or a zero divisor |
| MonkeyMath.SolveSecondBalances | src/bin/21.rs:126-163 | if every inversion on the path is exact, giving the missing name the value `solve_second` found makes the name evaluate to the expected value |
| MonkeyMath.PartOne | src/bin/21.rs:165-177 | `part_one` rejects a partly parsed input and otherwise evaluates `root` with `solve_first` |
| MonkeyMath.SolveRoot | src/bin/21.rs:188-203 | part two's answer exists only when `root` is present and composite |
| MonkeyMath.RootBalances | src/bin/21.rs:179-204 | with exact inversions, giving `humn` part two's answer makes root's two operands equal |
| MonkeyMath.PartTwo | src/bin/21.rs:179-204 | `part_two` rejects a partly parsed input, removes `humn` and solves from `root`; with exact inversions the answer balances root |
| MonkeyMath.ExampleEntries | src/bin/21.rs:216-226 | the published example's fifteen monkeys |
| MonkeyMath.ExampleClosed | src/bin/21.rs:216-226 | every name reachable from root in the example is present |
| MonkeyMath.ExamplePartOne | src/bin/21.rs:216-220 | `test_part_one`: root yells 152 |
| MonkeyMath.ExamplePartTwo | src/bin/21.rs:222-226 | `test_part_two`: `humn` must yell 301 |
| MonkeyMath.ExampleWithoutHumnFinite | src/bin/21.rs:188 | without `humn`, root's evaluation in the example is finite |
| MonkeyMath.PathToHumn | src/bin/21.rs:189-200 | on the example without `humn`: root's right side is 150, and undoing each operation down to `humn` gives 301 |
| MonkeyMath.FirstStep | src/bin/21.rs:83-95 | `solve_first` on an operation applies it to its operands' values |
| MonkeyMath.SecondStepFirstUnknown | src/bin/21.rs:146-153 | with only the second operand resolved, `solve_second` continues into the first with the inverted expected value |
| MonkeyMath.SecondStepSecondUnknown | src/bin/21.rs:137-144 | with only the first operand resolved, `solve_second` continues into the second with the inverted expected value |
| DistressSignal.FirstDecisionWins | src/bin/13.rs:43-56 | `are_lists_in_right_order` returns the first decided comparison of elements at the same index, when all earlier ones are undecided |
| DistressSignal.ExhaustionDecides | src/bin/13.rs:44-60 | when no element pair decides, the left list running out first is right, the right list running out first is wrong, and equal lengths are undecided |
| DistressSignal.Flip | src/bin/13.rs:63-76 | flipping a decision keeps it decided or undecided and inverts its value |
| DistressSignal.SwapFlips | src/bin/13.rs:63-76 | swapping the two packets inverts `is_in_right_order` (undecided stays undecided) |
| DistressSignal.SwapFlipsLists | src/bin/13.rs:43-61 | swapping the two lists inverts `are_lists_in_right_order` |
| DistressSignal.SelfUndecided | src/bin/13.rs:63-76 | a packet compared with itself is undecided |
| DistressSignal.SelfUndecidedLists | src/bin/13.rs:43-61 | a list compared with itself is undecided |
| DistressSignal.ParsePacket | src/bin/13.rs:31-33 | `parse_packet` (`alt((parse_list, parse_integer))`) consumes input whenever it succeeds |
| DistressSignal.ParseList | src/bin/13.rs:22-29 | `parse_list` consumes input whenever it succeeds |
| DistressSignal.ParseItems | src/bin/13.rs:25 | `separated_list0(char(','), parse_packet)` never grows its input |
| DistressSignal.PacketRoundTrip | src/bin/13.rs:17-33 | a packet written out (integers within `u32`) reads back as itself, up to the next `,`, `]`, line break or end |
| DistressSignal.ItemsRoundTrip | src/bin/13.rs:23-27 | a comma-separated list of written packets, before `]`, reads back as the list |
| DistressSignal.TailRoundTrip | src/bin/13.rs:25 | every `,packet` after the first item reads back in order |
| DistressSignal.TailStep | src/bin/13.rs:25 | one `,packet` step of `separated_list0` |
| DistressSignal.ParsePair | src/bin/13.rs:35-37 | `parse_packet_pair` consumes input whenever it succeeds |
| DistressSignal.PairRoundTrip | src/bin/13.rs:35-37 | two written packets on consecutive lines read back as the pair |
| DistressSignal.BlankLine | src/bin/13.rs:40 | `pair(newline, newline)` succeeds exactly on input starting with two newlines and leaves what follows them |
| DistressSignal.OrderedIndices | src/bin/13.rs:87-92 | the filtered indices are exactly the 1-based indices of the pairs whose comparison is `Some(true)` or undecided, in increasing order |
| DistressSignal.PartOne | src/bin/13.rs:78-97 | `part_one` succeeds exactly when the pairs parse completely |
| DistressSignal.OrderedIndicesSnoc | src/bin/13.rs:87-92 | one more pair adds its index exactly when it is in order |
| DistressSignal.OrderedIndicesStep | src/bin/13.rs:87-92 | the indices of a prefix one pair longer |
| DistressSignal.SumSnoc | src/bin/13.rs:96 | the sum of the indices grows by the added index |
| DistressSignal.AllOrderedSum | src/bin/13.rs:87-96 | when every pair is in order the answer is the triangular number n(n+1)/2 |
| DistressSignal.AllOrderedIndices | src/bin/13.rs:87-92 | when every pair is in order every index from 1 to n is kept |
| DistressSignal.SumOneTo | src/bin/13.rs:96 | 1 + 2 + ... + n doubled is n(n+1) |
| DistressSignal.ExampleFour | src/bin/13.rs:113-128 | `test_is_in_right_order_example_4`: `[[4,4],4,4]` against `[[4,4],4,4,4]` is `Some(true)` |
| DistressSignal.ExampleEight | src/bin/13.rs:130-138 | `test_is_in_the_right_order_example_8_false`: the long pair compares to `Some(false)` |
| DistressSignal.ExampleOrder1 | src/bin/13.rs:140-144 | the published example's first pair is in order |
| DistressSignal.ExampleOrder2 | src/bin/13.rs:140-144 | the second pair is in order |
| DistressSignal.ExampleOrder3 | src/bin/13.rs:140-144 | the third pair is not |
| DistressSignal.ExampleOrder4 | src/bin/13.rs:140-144 | the fourth pair is in order |
| DistressSignal.ExampleOrder5 | src/bin/13.rs:140-144 | the fifth pair is not |
| DistressSignal.ExampleOrder6 | src/bin/13.rs:140-144 | the sixth pair is in order |
| DistressSignal.ExampleOrder7 | src/bin/13.rs:140-144 | the seventh pair is not |
| DistressSignal.ExampleOrder8 | src/bin/13.rs:140-144 | the eighth pair is not |
| DistressSignal.SumOfOrderPattern | src/bin/13.rs:87-96 | eight pairs ordered as in the example keep indices 1, 2, 4, 6, summing to 13 |
| DistressSignal.ExamplePartOne | src/bin/13.rs:140-144 | `test_part_one`: the example's answer is 13 |
| DistressSignal.ParseItemsTail | src/bin/13.rs:25 | the `,packet` repetitions of `separated_list0` never grow the input |
| DistressSignal.PairParsersProgress | src/bin/13.rs:39-41 | the pair parser and the blank-line separator make the progress `separated_list0` needs |
| SupplyStacks.ParseCell | src/bin/05.rs:12-22 | a slot (three blanks, or `[`, any character, `]`) consumes input whenever it parses |
| SupplyStacks.Blank | src/bin/05.rs:27 | the single-space separator between slots succeeds exactly on input starting with a space and leaves the rest |
| SupplyStacks.CellProgress | src/bin/05.rs:25-27 | the slot parser and both separators make progress, as `separated_list1` needs |
| SupplyStacks.ParseRow | src/bin/05.rs:27 | a row of slots never grows the input |
| SupplyStacks.ParseLabel | src/bin/05.rs:30 | `preceded(space1, digit1)` consumes input whenever it parses |
| SupplyStacks.DrawingProgress | src/bin/05.rs:25-30 | the row and label parsers make the progress `separated_list1` and `many1` need |
| SupplyStacks.ParseDrawing | src/bin/05.rs:24-31 | a parsed drawing has at least one row |
| SupplyStacks.CellRoundTrip | src/bin/05.rs:12-22 | a slot drawn as `[c]` or three blanks reads back as the crate or the empty slot, whatever follows |
| SupplyStacks.CellsRead | src/bin/05.rs:12-22 | every drawn slot of a row reads back as its own slot |
| SupplyStacks.SeparatorsRead | src/bin/05.rs:25-27 | `tag(" ")` skips one blank and `newline` one line break |
| SupplyStacks.RowRoundTrip | src/bin/05.rs:27 | a drawn row reads back as its slots, up to text that does not start with a blank |
| SupplyStacks.RowsRead | src/bin/05.rs:27 | every drawn row reads back as its own row |
| SupplyStacks.LabelRoundTrip | src/bin/05.rs:30 | `preceded(space1, digit1)` reads a drawn label back as its number's digits |
| SupplyStacks.LabelsRead | src/bin/05.rs:30 | every label of the label line reads back as its own number |
| SupplyStacks.LabelsStartBlank | src/bin/05.rs:30 | every label starts with a blank, so `digit1` never runs from one label into the next |
| SupplyStacks.LabelLineRoundTrip | src/bin/05.rs:30-31 | `many1` reads the label line back as the numbers `1` to `n`, and `multispace1` then skips the blank space after it |
| SupplyStacks.NotARow | src/bin/05.rs:25-27 | a line starting with one blank and then something else is not a row, so the rows end there |
| SupplyStacks.GapRoundTrip | src/bin/05.rs:30-31 | blank space ends the labels and is skipped whole by `multispace1` |
| SupplyStacks.RowsRoundTrip | src/bin/05.rs:25-28 | drawn rows joined by line breaks read back as those rows, leaving the line break before the next line |
| SupplyStacks.LabelLineNotARow | src/bin/05.rs:25-30 | the label line is not read as a further row |
| SupplyStacks.DrawingParts | src/bin/05.rs:24-31 | `parse_crates` reads the rows, a line break, the labels and blank space, in that order |
| SupplyStacks.DrawingRoundTrip | src/bin/05.rs:24-31 | a drawing written as rows, label line and blank space reads back as its rows, leaving what follows |
| SupplyStacks.ExampleDrawingText | src/bin/05.rs:134-137 | the example's first five lines joined by line breaks are the drawing of the example rows over three labels |
| SupplyStacks.ExampleParseCrates | src/bin/05.rs:132-143 | `test_parse_crates`: the example's drawing text parses completely and builds `ZN`, `MCD`, `P` |
| SupplyStacks.PushRow | src/bin/05.rs:38-42 | pushing one row succeeds exactly when it has no crate beyond the stacks, and then adds each slot's crate on top of its stack |
| SupplyStacks.BuildStacks | src/bin/05.rs:33-44 | there are as many stacks as slots in the first row; stack `j` holds the crates of column `j` from the bottom row up; a crate beyond the first row's width is an error (the source's out-of-bounds panic) |
| SupplyStacks.Drawn | src/bin/05.rs:33-44 | the built stacks, one per slot of the first row |
| SupplyStacks.ParseTagged | src/bin/05.rs:55-60 | a tag followed by a `u32` consumes input whenever it parses |
| SupplyStacks.ParseMove | src/bin/05.rs:54-62 | `parse_single_move` consumes input whenever it parses |
| SupplyStacks.MoveProgress | src/bin/05.rs:64-66 | the move parser and the line break make the progress `separated_list1` needs |
| SupplyStacks.ParseMoves | src/bin/05.rs:64-66 | `parse_moves` yields at least one move |
| SupplyStacks.TaggedRoundTrip | src/bin/05.rs:55-60 | a tag and a written `u32` read back as the number |
| SupplyStacks.MoveRoundTrip | src/bin/05.rs:54-62 | a move written as `move c from f to t` reads back as itself |
| SupplyStacks.Reverse | src/bin/05.rs:83 | `.rev()` keeps the length |
| SupplyStacks.ReverseAt | src/bin/05.rs:83 | element `i` of the reversal is element `n-1-i` of the original |
| SupplyStacks.ReverseSnoc | src/bin/05.rs:83 | reversing `s + [c]` puts `c` first |
| SupplyStacks.ReverseReverse | src/bin/05.rs:83 | reversing twice gives back the block |
| SupplyStacks.PushAll | src/bin/05.rs:86-88 | pushing a block puts it on top of the target stack and changes nothing else; an empty block never touches the target, which then need not exist |
| SupplyStacks.ApplyMove | src/bin/05.rs:79-88 | a move, done in place, drains the top `count` crates of `from` and pushes them onto `to`, reversed for part one and in order for part two |
| SupplyStacks.TotalUpdate | src/bin/05.rs:78-89 | replacing one stack changes the crate total by the difference in its height |
| SupplyStacks.MovePreservesTotal | src/bin/05.rs:78-89 | a move keeps the number of stacks and the number of crates |
| SupplyStacks.MoveLeavesOthers | src/bin/05.rs:78-89 | a move leaves every stack other than `from` and `to` unchanged |
| SupplyStacks.MovedBetween | src/bin/05.rs:79-88 | between two different stacks, `from` keeps what lies below the block and `to` gains the block on top |
| SupplyStacks.MoveBackRestores | src/bin/05.rs:79-88 | moving the same count back from `to` to `from` restores the stacks, for either crane |
| SupplyStacks.SingleMoved | src/bin/05.rs:83-88 | moving one crate takes the top of `from` and puts it on `to` |
| SupplyStacks.SingleThenRest | src/bin/05.rs:83-88 | part one's move of `c` crates is one crate then `c-1` more |
| SupplyStacks.SplitTop | src/bin/05.rs:81-83 | the drained block is the rest of the block below, with the top crate above it |
| SupplyStacks.TwoSteps | src/bin/05.rs:83-88 | the stack-by-stack bookkeeping of two successive moves |
| SupplyStacks.TopSlices | src/bin/05.rs:81 | the drain range `len - count..` splits into its lower part and the top crate |
| SupplyStacks.MoveIsOneAtATime | src/bin/05.rs:83-88 | part one's reversing move equals moving the crates one at a time, as the puzzle's crane does |
| SupplyStacks.MoveAll | src/bin/05.rs:78-89 | applying the moves keeps the number of stacks; the first move the source panics on (a missing `from`, too few crates, `to` of 0, or a missing `to` that a crate is pushed onto) is reported by its index |
| SupplyStacks.EmptyMoveKeeps | src/bin/05.rs:79-88 | a move of no crates is accepted and changes nothing, even when `to` names no stack, since the push loop never runs |
| SupplyStacks.EmptyMoveToMissingStack | src/bin/05.rs:78-89 | `move 0 from 1 to 9` on the three example stacks leaves them as they were |
| SupplyStacks.TopsOfNonEmpty | src/bin/05.rs:91 | with no empty stack the answer has one letter per stack, its top crate |
| SupplyStacks.TakeTops | src/bin/05.rs:91 | `filter_map(pop)` collects the top of every non-empty stack in order and pops it |
| SupplyStacks.MoveEach | src/bin/05.rs:78-89 | the in-place loop over the moves ends in the stacks `MoveAll` computes, or stops at the move it reports |
| SupplyStacks.Rearrange | src/bin/05.rs:72-118 | `part_one` (reversing crane) and `part_two` (order-keeping crane) return the answer: parse, reject a remainder, build, move, take tops |
| SupplyStacks.PartOneMovesOneAtATime | src/bin/05.rs:78-89 | part one's whole run equals moving every crate one at a time |
| SupplyStacks.ExampleStacks | src/bin/05.rs:132-143 | `test_parse_crates`: the example drawing builds `ZN`, `MCD`, `P` |
| SupplyStacks.MoveStep | src/bin/05.rs:79-88 | a move is determined by what it does to `from`, `to` and the other stacks |
| SupplyStacks.ExampleOneMoves | src/bin/05.rs:182-186 | each example move with part one's crane |
| SupplyStacks.ExampleTwoMoves | src/bin/05.rs:188-192 | each example move with part two's crane |
| SupplyStacks.ExamplePartOne | src/bin/05.rs:182-186 | `test_part_one`: the tops are `CMZ` |
| SupplyStacks.ExamplePartTwo | src/bin/05.rs:188-192 | `test_part_two`: the tops are `MCD` |
| SupplyStacks.Tops | src/bin/05.rs:91 | at most one letter per stack |
| RopeBridge.ParseMotion | src/bin/09.rs:20-32 | `parse_motion` consumes input whenever it parses |
| RopeBridge.MotionProgress | src/bin/09.rs:34-36 | the motion parser and the line break make the progress `separated_list1` needs |
| RopeBridge.ParseMotions | src/bin/09.rs:34-36 | `parse_motions` yields at least one motion |
| RopeBridge.DirectionCharOf | src/bin/09.rs:21-30 | every motion's letter is one of `UDLR` and maps back to the same kind of motion, so the `unhandled direction` panic cannot happen |
| RopeBridge.BlankThenNumber | src/bin/09.rs:22-23 | a blank and a written `u32` read back as the number |
| RopeBridge.MotionRoundTrip | src/bin/09.rs:20-32 | a motion written as `D n` reads back as itself |
| RopeBridge.MotionsRead | src/bin/09.rs:20-32 | every written motion reads back as itself |
| RopeBridge.MotionsRoundTrip | src/bin/09.rs:34-36 | motions written one per line read back as themselves, leaving the text that follows |
| RopeBridge.HeadMoves | src/bin/09.rs:51-63 | `head_moves` returns the motion's unit step exactly `amount` times (`test_head_moves` at 222-228 is the case `R 4`) |
| RopeBridge.Repeat | src/bin/09.rs:59-61 | `amount` copies of one step |
| RopeBridge.MotionDisplacement | src/bin/09.rs:51-63 | a motion moves the head `amount` units in its direction |
| RopeBridge.Steps | src/bin/09.rs:114-115 | every head step is a unit step |
| RopeBridge.ChaseTouches | src/bin/09.rs:65-102 | with the head at most two away on each axis, the tail ends touching the head and moves at most one unit per axis |
| RopeBridge.Knot.constructor | src/bin/09.rs:110-111 | a knot starts at the given position |
| RopeBridge.Knot.Add | src/bin/09.rs:44-49 | `TwoD::add` adds the step component-wise in place |
| RopeBridge.Knot.Follow | src/bin/09.rs:65-102 | `tail_move` moves the tail in place to the position the chase rule gives: stay when touching, otherwise one step toward the head on each differing axis; more than two apart on an axis is the source's panic |
| RopeBridge.ChaseStraightExamples | src/bin/09.rs:142-180 | the unit tests where the head is two away along one axis |
| RopeBridge.ChaseDiagonalExamples | src/bin/09.rs:166-188 | the unit tests where the tail steps diagonally |
| RopeBridge.ChaseStaysExamples | src/bin/09.rs:150-220 | the unit tests where the tail stays put |
| RopeBridge.Trail | src/bin/09.rs:114-121 | one recorded tail position per head step |
| RopeBridge.HeadFollowsSteps | src/bin/09.rs:114-117 | the head ends where the sum of its steps takes it |
| RopeBridge.TailTouchesHead | src/bin/09.rs:114-121 | from a touching rope, unit head steps keep the tail touching the head after every step, so `tail_move` never panics |
| RopeBridge.TrailIsContinuous | src/bin/09.rs:118-119 | consecutive recorded tail positions differ by at most one unit per axis |
| RopeBridge.StepsSnoc | src/bin/09.rs:114-115 | one more motion appends its head steps |
| RopeBridge.FollowMoves | src/bin/09.rs:115-120 | the inner loop moves head and tail in place, keeps them touching, and appends exactly the trail of the steps |
| RopeBridge.MoveRope | src/bin/09.rs:116-118 | one head step then the tail's follow, keeping the rope touching |
| RopeBridge.RunConcat | src/bin/09.rs:114-121 | running two lists of steps in turn is running their concatenation, for the rope and for its trail |
| RopeBridge.MotionsAreSteps | src/bin/09.rs:114-121 | following motion by motion equals following all head steps at once |
| RopeBridge.MotionStep | src/bin/09.rs:114-121 | one more motion extends the rope and trail by that motion's steps |
| RopeBridge.Simulate | src/bin/09.rs:109-121 | the recorded positions are the start followed by the tail's position after every head step |
| RopeBridge.PartOne | src/bin/09.rs:104-126 | `part_one` counts the distinct tail positions, the start included; a parse failure or remainder is an error |
| RopeBridge.MotionFrom | src/bin/09.rs:114-121 | one more motion continues the rope and the trail from where the previous motions left them |
| RopeBridge.StepFirst | src/bin/09.rs:115-120 | a motion is its first head step and the tail's follow, then the remaining steps |
| RopeBridge.NoSteps | src/bin/09.rs:115 | a motion of no steps changes nothing and records nothing |
| RopeBridge.ExampleRight4 | src/bin/09.rs:115-120 | `R 4` from the start: the tail records (0,0), (1,0), (2,0), (3,0) |
| RopeBridge.ExampleUp4 | src/bin/09.rs:115-120 | `U 4`: the tail records (3,0), (4,1), (4,2), (4,3) |
| RopeBridge.ExampleLeft3 | src/bin/09.rs:115-120 | `L 3`: the tail records (4,3), (3,4), (2,4) |
| RopeBridge.ExampleDown1 | src/bin/09.rs:115-120 | `D 1`: the tail stays at (2,4) |
| RopeBridge.ExampleRight4Again | src/bin/09.rs:115-120 | the second `R 4`: the tail records (2,4), (2,4), (3,3), (4,3) |
| RopeBridge.ExampleDown1Again | src/bin/09.rs:115-120 | the second `D 1`: the tail stays at (4,3) |
| RopeBridge.ExampleLeft5 | src/bin/09.rs:115-120 | `L 5`: the tail records (4,3), (4,3), (3,2), (2,2), (1,2) |
| RopeBridge.ExampleRight2 | src/bin/09.rs:115-120 | `R 2`: the tail stays at (1,2) |
| RopeBridge.ExampleAfter2 | src/bin/09.rs:114-121 | the rope and trail after the example's first two motions |
| RopeBridge.ExampleAfter4 | src/bin/09.rs:114-121 | the rope and trail after its first four motions |
| RopeBridge.ExampleAfter6 | src/bin/09.rs:114-121 | the rope and trail after its first six motions |
| RopeBridge.ExampleAfter8 | src/bin/09.rs:114-121 | the rope and the 24 recorded tail positions after all eight motions |
| RopeBridge.DistinctCons | src/bin/09.rs:112-123 | the start recorded before the trail adds it to the positions counted |
| RopeBridge.ExampleDistinct | src/bin/09.rs:123 | the 24 tail positions the example records are, as a set, exactly 13 listed positions |
| RopeBridge.ExampleCount | src/bin/09.rs:123 | those positions are 13 different ones, the start among them |
| RopeBridge.ExampleVisits | src/bin/09.rs:109-123 | on the example, the start and the tail's positions are 13 distinct positions |
| RopeBridge.ExampleAnswer | src/bin/09.rs:230-234 | `test_part_one`: the example's eight motions, one per line, give 13 |
| NoSpace.LineEnding | src/bin/07.rs:58-60 | `line_ending` consumes input whenever it matches |
| NoSpace.LineText | src/bin/07.rs:32 | `take_till1(is_newline)` consumes input whenever it matches |
| NoSpace.ParseCd | src/bin/07.rs:30-35 | `parse_cd` consumes input whenever it parses |
| NoSpace.ParseDir | src/bin/07.rs:37-41 | `parse_dir` consumes input whenever it parses |
| NoSpace.ParseFile | src/bin/07.rs:43-54 | `parse_file` consumes input whenever it parses |
| NoSpace.ParseListing | src/bin/07.rs:59 | `alt((parse_file, parse_dir))` consumes input whenever it parses |
| NoSpace.ListingProgress | src/bin/07.rs:59 | entries and line endings make the progress `separated_list1` needs |
| NoSpace.ParseLs | src/bin/07.rs:56-62 | `parse_ls` consumes input whenever it parses |
| NoSpace.ParseCommand | src/bin/07.rs:65 | `alt((parse_cd, parse_ls))` consumes input whenever it parses |
| NoSpace.CommandProgress | src/bin/07.rs:65 | the command parser makes the progress `many1` needs |
| NoSpace.ParseInput | src/bin/07.rs:64-66 | `parse_input` yields at least one command |
| NoSpace.LineTextOf | src/bin/07.rs:32 | a name without a line break reads whole, up to the next `\n` |
| NoSpace.CdRoundTrip | src/bin/07.rs:30-35 | a written `$ cd name` line reads back as the command |
| NoSpace.ListingRoundTrip | src/bin/07.rs:37-54 | a written `dir name` or `size name` entry reads back as itself, for sizes within `u32` and names that neither start with a blank nor hold a line break |
| NoSpace.FileRoundTrip | src/bin/07.rs:43-54 | a written `size name` entry reads back as the file |
| NoSpace.FileOfPieces | src/bin/07.rs:43-54 | `parse_file` reads the name after the size and the blank |
| NoSpace.CdExample | src/bin/07.rs:215-228 | `test_cd`: `$ cd /\n` parses completely |
| NoSpace.LsOfPieces | src/bin/07.rs:56-62 | `parse_ls` on a header and a complete list of entries |
| NoSpace.TailOfOne | src/bin/07.rs:59 | a line ending and one entry read as the tail of the list |
| NoSpace.ListOfTwo | src/bin/07.rs:59 | two entries on their own lines read as a list of two |
| NoSpace.TwoEntries | src/bin/07.rs:59 | two written entries read back as a list of two |
| NoSpace.LsOfTwo | src/bin/07.rs:245-258 | the shape of `test_ls`: `$ ls` and two entries parse completely as one listing |
| NoSpace.LsLayout | src/bin/07.rs:245-258 | the text of a two-entry listing regroups as the parser reads it |
| NoSpace.ComponentsArePlain | src/bin/07.rs:106-108 | every path component `push` adds is a non-empty name without '/' |
| NoSpace.RelativeHasComponent | src/bin/07.rs:106-108 | a relative name adds at least one component, the text before its first '/' |
| NoSpace.OneComponent | src/bin/07.rs:106-108 | a name without '/' is exactly one component |
| NoSpace.ComponentsStep | src/bin/07.rs:106-108 | a name `first/rest` has `first` as its first component, followed by the components of `rest` |
| NoSpace.ComponentsAt | src/bin/07.rs:106-108 | a name splits at its first '/' into the text before it, when that is not empty, and the components of what follows |
| NoSpace.ComponentsOfJoin | src/bin/07.rs:106-108 | non-empty names without '/' joined by '/' split back into exactly those names |
| NoSpace.PushExtends | src/bin/07.rs:106-108 | `cwd.push(p)` for a relative name keeps the old path as a prefix and goes at least one level deeper |
| NoSpace.PushAbsolute | src/bin/07.rs:106-108 | `cwd.push(p)` for a name starting with '/' starts from the root, whatever the old path |
| NoSpace.PushRoot | src/bin/07.rs:106-108 | `cd /` goes to the root from any directory |
| NoSpace.Pop | src/bin/07.rs:103-105 | `cwd.pop()` keeps a prefix of the path, exactly one component shorter unless the path is empty or the root |
| NoSpace.PopPushComponents | src/bin/07.rs:100-111 | `cd name` then `cd ..` leaves every component of a relative name but its last, so `cd a/b` then `cd ..` is in `a` |
| NoSpace.PopPush | src/bin/07.rs:100-111 | `cd name` then `cd ..` returns to the starting directory, for a relative name without '/' |
| NoSpace.LocalSize | src/bin/07.rs:75-83 | the local size is at least each entry's share |
| NoSpace.LocalSizeIsFileTotal | src/bin/07.rs:75-83 | the local size is the total of the file sizes; subdirectories add nothing |
| NoSpace.LocalSizeConcat | src/bin/07.rs:75-83 | the local size of two runs of entries is the sum of theirs |
| NoSpace.ListedAt | src/bin/07.rs:88-99 | the k-th `ls` gives the k-th recorded directory, tagged with the working directory at that point and its local size |
| NoSpace.ListedLength | src/bin/07.rs:88-113 | one directory is recorded per `ls` |
| NoSpace.Replay | src/bin/07.rs:85-115 | `run_part_one` records exactly the listed directories, in order |
| NoSpace.Index | src/bin/07.rs:139-140 | the `fs` map holds every listed path, each under its own path, and only listed directories |
| NoSpace.IndexKeepsLast | src/bin/07.rs:139-140 | of several directories with one path, `collect` keeps the last listed |
| NoSpace.CombinedSize | src/bin/07.rs:117-136 | `calc_combined` is at least the local size; its only failure is a subdirectory missing from `fs` (the `expect` panic) |
| NoSpace.SubdirTotal | src/bin/07.rs:122-134 | the subdirectory total fails exactly when some listed subdirectory is missing, and otherwise is at least each subdirectory's combined size |
| NoSpace.DepthIrrelevant | src/bin/07.rs:117-136 | the recursion bound plays no part in the combined size |
| NoSpace.SubdirDepthIrrelevant | src/bin/07.rs:122-134 | the recursion bound plays no part in the subdirectory total |
| NoSpace.RelativeNamesFinite | src/bin/07.rs:117-136 | with relative subdirectory names, every recursive call goes one component deeper, so `calc_combined` returns |
| NoSpace.Sizes | src/bin/07.rs:138-153 | the result map fails only through a missing subdirectory |
| NoSpace.SizesShape | src/bin/07.rs:138-153 | the map fails exactly when some combined size does, and otherwise has exactly the listed paths as keys |
| NoSpace.SizesFirstListed | src/bin/07.rs:143-150 | each path maps to the combined size of the directory listed under it |
| NoSpace.CombinedSizes | src/bin/07.rs:138-153 | `calc_combined_sizes` builds the map `Sizes` describes |
| NoSpace.SmallTotalTake | src/bin/07.rs:164-169 | the sum of sizes below 100000 does not depend on the map's iteration order |
| NoSpace.TotalBelow | src/bin/07.rs:164-169 | `part_one`'s sum of the combined sizes below 100000 |
| NoSpace.Needed | src/bin/07.rs:181-190 | the needed space fails exactly when `DISK_SIZE - used` or `UPDATE_SIZE - free` would go below zero, the `u32` subtraction panics |
| NoSpace.DeletionFreesEnough | src/bin/07.rs:189-196 | a directory larger than the needed space frees enough room for the update, and one no larger does not |
| NoSpace.FindSmallestAbove | src/bin/07.rs:193-201 | the first size after filtering and sorting is the smallest one above the needed space; none exists exactly when no size is above it |
| NoSpace.SizesDepthIrrelevant | src/bin/07.rs:138-153 | the recursion bound plays no part in the map |
| NoSpace.SizesOfIs | src/bin/07.rs:155-162 | the map both parts work on is the one built from the replayed directories |
| NoSpace.LongestPath | src/bin/07.rs:138-153 | a bound on every listed path's length |
| NoSpace.RelativeListingsFinite | src/bin/07.rs:138-153 | with relative subdirectory names, every listed directory's combined size is computable |
| NoSpace.EachFinite | src/bin/07.rs:143-150 | the same, directory by directory |
| NoSpace.RelativeListingsTerminate | src/bin/07.rs:155-162 | a transcript whose listings name subdirectories relatively meets what both parts demand |
| NoSpace.PartOne | src/bin/07.rs:155-170 | `part_one` returns the total of the combined sizes below 100000, or the error on the way |
| NoSpace.PartTwo | src/bin/07.rs:172-203 | `part_two` returns the smallest combined size above the needed space; the subtraction panics and the `expect` on no candidate are errors |
| NoSpace.ExampleLocalSizes | src/bin/07.rs:275-285 | the local sizes of the published example's four directories |
| NoSpace.StepCd | src/bin/07.rs:100-111 | a `cd` changes the working directory and records nothing |
| NoSpace.StepLs | src/bin/07.rs:90-99 | an `ls` records one directory and keeps the working directory |
| NoSpace.CdInto | src/bin/07.rs:100-111 | `cd name` for a one-component name appends it to the working directory and records nothing |
| NoSpace.CdUp | src/bin/07.rs:100-105 | `cd ..` below the root drops the last component and records nothing |
| NoSpace.CdRootLs | src/bin/07.rs:89-111 | `cd /` then `ls` records the root with its listing and local size |
| NoSpace.CdIntoLs | src/bin/07.rs:89-111 | `cd name` then `ls` records the directory one level down |
| NoSpace.UpTwice | src/bin/07.rs:100-105 | `cd ..` twice from three components down goes up two levels |
| NoSpace.UpTwiceLs | src/bin/07.rs:89-111 | `cd ..` twice, `cd name` and `ls` record the sibling of the parent |
| NoSpace.ExampleIntoA | src/bin/07.rs:85-115 | the example's `cd a` and `ls` record `/a` |
| NoSpace.ExampleIntoE | src/bin/07.rs:85-115 | the example's `cd e` and `ls` record `/a/e` |
| NoSpace.ExampleDescent | src/bin/07.rs:85-115 | the example's walk down from the root |
| NoSpace.ExampleReturn | src/bin/07.rs:85-115 | the example's climb back and final listing |
| NoSpace.ExampleReplay | src/bin/07.rs:85-115 | replaying the example records its four directories |
| NoSpace.FilesOnly | src/bin/07.rs:122-134 | entries without subdirectories add nothing to `calc_combined` |
| NoSpace.ExampleIndexAt | src/bin/07.rs:139-140 | the example's `fs` map holds each directory |
| NoSpace.ExampleIndex | src/bin/07.rs:139-140 | the example's `fs` map holds all four |
| NoSpace.ExampleLongestPath | src/bin/07.rs:138-153 | the example's longest path has three components |
| NoSpace.ExampleE | src/bin/07.rs:117-136 | directory `e` totals 584 |
| NoSpace.ExampleD | src/bin/07.rs:117-136 | directory `d` totals 24933642 |
| NoSpace.ExampleA | src/bin/07.rs:117-136 | directory `a` totals 94853 |
| NoSpace.ExampleRoot | src/bin/07.rs:117-136 | the root totals 48381165 |
| NoSpace.SizesCons | src/bin/07.rs:143-150 | a directory in front of the list sets its own path's entry |
| NoSpace.ExampleSizesOf | src/bin/07.rs:138-153 | the example's map of combined sizes |
| NoSpace.ExampleRelative | src/bin/07.rs:275-285 | the example names subdirectories only relatively |
| NoSpace.ExampleCombined | src/bin/07.rs:138-153 | the example's map is computable and is the expected one |
| NoSpace.ExamplePartOne | src/bin/07.rs:275-279 | `test_part_one`: the example's answer is 95437 |
| NoSpace.ExamplePartTwo | src/bin/07.rs:281-285 | `test_part_two`: 8381165 is needed and 24933642 is the smallest size above it |
| CampCleanup.FullyMeansContains | src/bin/04.rs:7-15 | for ranges whose start is not after their end, `fully_overlaps_either` holds exactly when one range contains every section of the other |
| CampCleanup.OverlapMeansShared | src/bin/04.rs:16-24 | for such ranges, `overlaps_either` holds exactly when some section lies in both |
| CampCleanup.Symmetric | src/bin/04.rs:7-24 | both predicates give the same answer with the arguments swapped |
| CampCleanup.FullyImpliesOverlap | src/bin/04.rs:7-24 | for such ranges, containment implies overlap |
| CampCleanup.ReversedRangeBreaksImplication | src/bin/04.rs:7-24 | with a reversed range (`3-0`) containment holds and overlap does not |
| CampCleanup.PredicateExamples | src/bin/04.rs:82-128 | the six unit tests of the two predicates, in both argument orders |
| CampCleanup.ParseAssignment | src/bin/04.rs:35-43 | `from_str` fails with `Split` exactly when there is no `-`; a parsed bound fits in `u32` |
| CampCleanup.ParseLineAsPair | src/bin/04.rs:45-50 | `parse_line_as_pair` fails with `PairSplit` exactly when there is no `,` |
| CampCleanup.NoSeparatorInDigits | src/bin/04.rs:38-46 | a digit string holds no separator |
| CampCleanup.AssignmentRoundTrip | src/bin/04.rs:35-43 | a range written as `a-b` reads back as itself |
| CampCleanup.PairRoundTrip | src/bin/04.rs:45-50 | a line written as `a-b,c-d` reads back as the pair |
| CampCleanup.ParseAll | src/bin/04.rs:54-56 | every line parses to the corresponding pair, or some line fails (the `expect` panic) |
| CampCleanup.CountIf | src/bin/04.rs:57-58 | `filter(..).count()` is at most the number of pairs |
| CampCleanup.CountSnoc | src/bin/04.rs:57-58 | one more pair adds one exactly when it is kept |
| CampCleanup.CountIsKept | src/bin/04.rs:57-58 | the count is the number of positions whose pair is kept |
| CampCleanup.CountMonotone | src/bin/04.rs:57-67 | a wider filter never counts fewer |
| CampCleanup.PartTwoAtLeastPartOne | src/bin/04.rs:52-70 | when every range read is proper, part two's answer is at least part one's |
| CampCleanup.FormatLines | src/bin/04.rs:54-55 | one written line per pair |
| CampCleanup.ReadBack | src/bin/04.rs:54-56 | the lines of a written input are the written pairs, and they parse back to the pairs |
| CampCleanup.ParseAllOk | src/bin/04.rs:54-56 | lines that each parse give the list of their pairs |
| CampCleanup.PartsOnText | src/bin/04.rs:52-70 | on a written input, the parts count exactly the pairs where one range contains the other, and where they overlap |
| CampCleanup.ExampleCounts | src/bin/04.rs:130-140 | the example's pairs: 2 contain, 4 overlap |
| CampCleanup.Example | src/bin/04.rs:130-140 | `test_part_one` and `test_part_two`: 2 and 4 |
| TuningTrouble.CountedIffDistinct | src/bin/06.rs:8-13 | the set of a window has at most as many elements as the window, and exactly as many when no character repeats |
| TuningTrouble.FourCounted | src/bin/06.rs:8-13 | the `HashSet` of four characters has four elements exactly when they are all different |
| TuningTrouble.FirstFrom | src/bin/06.rs:5-17 | a reported marker is the end of a scanned window |
| TuningTrouble.FirstFromFinds | src/bin/06.rs:5-17 | a reported marker ends a window of different characters and every earlier scanned window repeats a character; no marker means every scanned window repeats one |
| TuningTrouble.LongerScan | src/bin/06.rs:5-33 | scanning more windows changes nothing once a marker is found |
| TuningTrouble.PartOne | src/bin/06.rs:3-18 | `part_one` scans window starts `0..len - 3` and returns the end of the first window of four different characters (fewer than three characters is the source's `usize` underflow panic) |
| TuningTrouble.ScanWindows | src/bin/06.rs:23-33 | the outer loop of `part_two` returns the first marker among the scanned starts |
| TuningTrouble.WindowChars | src/bin/06.rs:24-28 | the inner loop collects exactly the window's characters |
| TuningTrouble.PartTwoAsWritten | src/bin/06.rs:20-34 | `part_two` as written scans starts `0..len - 15` only |
| TuningTrouble.PartTwo | src/bin/06.rs:20-34 | `part_two` scanning every start `0..len - 13`, the first window of fourteen different characters |
| TuningTrouble.PartTwoFormsAgree | src/bin/06.rs:23 | both forms agree whenever the written one finds a marker; they differ only when the marker ends one of the last two windows |
| TuningTrouble.Repeated | src/bin/06.rs:29 | a repeated pair inside a window rules it out |
| TuningTrouble.FoundWindow | src/bin/06.rs:29-31 | a window of different characters ends the scan with its end position |
| TuningTrouble.LastWindowsMissed | src/bin/06.rs:23 | on `aabcdefghijklmn` the written loop finds nothing while the only marker ends at 15 |
| TuningTrouble.SkipWindows | src/bin/06.rs:23-33 | windows that repeat a character are passed over |
| TuningTrouble.StartOfPacketExample1 | src/bin/06.rs:46-50 | `test_part_one_1`: 7 |
| TuningTrouble.StartOfPacketExample2 | src/bin/06.rs:52-56 | `test_part_one_2`: 5 |
| TuningTrouble.StartOfPacketExample3 | src/bin/06.rs:58-62 | `test_part_one_3`: 6 |
| TuningTrouble.StartOfPacketExample4 | src/bin/06.rs:64-68 | `test_part_one_4`: 10 |
| TuningTrouble.StartOfPacketExample5 | src/bin/06.rs:70-74 | `test_part_one_5`: 11 |
| TuningTrouble.StartOfMessageExample1 | src/bin/06.rs:76-80 | `test_part_two_1`: 19, with the written loop |
| TuningTrouble.StartOfMessageExample2 | src/bin/06.rs:82-86 | `test_part_two_2`: 23 |
| TuningTrouble.StartOfMessageExample3 | src/bin/06.rs:88-92 | `test_part_two_3`: 23 |
| TuningTrouble.StartOfMessageExample4 | src/bin/06.rs:94-98 | `test_part_two_4`: 29 |
| TuningTrouble.StartOfMessageExample5 | src/bin/06.rs:100-104 | `test_part_two_5`: 26 |
| CathodeRay.ParseNoop | src/bin/10.rs:17-21 | `parse_noop` consumes input whenever it parses |
| CathodeRay.ParseAddx | src/bin/10.rs:22-27 | `parse_addx` consumes input whenever it parses |
| CathodeRay.ParseInstruction | src/bin/10.rs:30 | `alt((parse_noop, parse_addx))` consumes input whenever it parses |
| CathodeRay.InstructionProgress | src/bin/10.rs:29-31 | the instruction parser and the line break make the progress `separated_list1` needs |
| CathodeRay.ParseProgram | src/bin/10.rs:29-31 | `parse_program` yields at least one instruction |
| CathodeRay.InstructionRoundTrip | src/bin/10.rs:17-30 | `noop` and `addx d` with `d` within `i32` read back as themselves |
| CathodeRay.InterestingInLists | src/bin/10.rs:40-41 | the listed cycles of a range are exactly its cycles of interest (20, 60, ..., 220), increasing and within the range |
| CathodeRay.InterestingSplit | src/bin/10.rs:47-52 | splitting a range of cycles splits its cycles of interest |
| CathodeRay.RecordUnfold | src/bin/10.rs:42-55 | the outer loop runs the first instruction's cycles, then the rest with the advanced cycle and `X` |
| CathodeRay.StrengthsConcat | src/bin/10.rs:48-52 | strengths of two lists of cycles are the two lists of strengths |
| CathodeRay.MarksAreStrengths | src/bin/10.rs:47-52 | during an instruction's own cycles `X` still has its value from before the instruction |
| CathodeRay.StrengthsAfterFirst | src/bin/10.rs:53-54 | after the first instruction the rest of the program sees `X` plus its delta |
| CathodeRay.LateStrengths | src/bin/10.rs:42-55 | the cycles of interest after the first instruction see what the rest of the program sees |
| CathodeRay.RecordIsStrengths | src/bin/10.rs:37-55 | the recorded values are exactly `c * X` during `c` for every cycle of interest the program runs through, in increasing order, each once |
| CathodeRay.MarkCycles | src/bin/10.rs:48-52 | the inner loop appends `c * X` for each cycle of interest in `cycle..cycle_next` |
| CathodeRay.RecordStep | src/bin/10.rs:42-55 | one pass of the outer loop, in terms of what was recorded before it |
| CathodeRay.Simulate | src/bin/10.rs:37-55 | the loop records the signal strengths the outer loop's definition gives |
| CathodeRay.AsU32 | src/bin/10.rs:58 | the `i32` sum cast `as u32` keeps the value modulo 2^32 and is unchanged for values already in range |
| CathodeRay.PartOne | src/bin/10.rs:33-59 | `part_one` is the sum of `c * X` during each cycle of interest the program reaches, read as a `u32`; an unparsable program is the `expect` panic |
| CathodeRay.SmallProgram | src/bin/10.rs:42-55 | on `noop`, `addx 3`, `addx -5`, `X` is 1 during cycles 1-3, 4 during 4-5 and -1 afterwards, over five cycles |
| CalorieCounting.ClosedSumsAt | src/bin/01.rs:5-14 | a line that reads as a `u32` adds to the running sum; any other line records the sum and restarts from 0 |
| CalorieCounting.OneGroupPerSeparator | src/bin/01.rs:5-14 | one sum is recorded per line that does not read as a number |
| CalorieCounting.GroupOfNumbers | src/bin/01.rs:5-14 | a run of numbers closed by a non-numeric line records the running sum plus their total |
| CalorieCounting.ClosedSumsConcat | src/bin/01.rs:5-14 | after a non-numeric line the reading starts afresh |
| CalorieCounting.UnclosedGroupDropped | src/bin/01.rs:5-14 | numbers after the last non-numeric line never close a group, so their sum is not recorded |
| CalorieCounting.NumbersRecordNothing | src/bin/01.rs:5-14 | lines that all read as numbers record nothing |
| CalorieCounting.MaxOr0IsMaximum | src/bin/01.rs:3-15 | the running maximum from 0 is at least every recorded sum, 0 with none, and otherwise one of them |
| CalorieCounting.PartOne | src/bin/01.rs:1-16 | `part_one` returns the largest recorded group sum, or 0 |
| CalorieCounting.InsertAscending | src/bin/01.rs:30 | inserting into an ascending list keeps it ascending and one longer |
| CalorieCounting.InsertMultiset | src/bin/01.rs:30 | inserting adds exactly the element |
| CalorieCounting.SortAscendingSorts | src/bin/01.rs:30 | `sort_unstable` yields an ascending permutation of the sums |
| CalorieCounting.PartTwo | src/bin/01.rs:18-32 | `part_two` returns the sum of the last three of the sorted recorded sums |
| CalorieCounting.PushGroups | src/bin/01.rs:19-29 | the loop pushes every recorded sum, in order |
| CalorieCounting.SumLastThree | src/bin/01.rs:31 | `iter().rev().take(3).sum()` adds the last three elements, or all when fewer |
| CalorieCounting.SumInsert | src/bin/01.rs:30 | inserting adds the element to the total |
| CalorieCounting.SumSorted | src/bin/01.rs:30 | sorting keeps the total |
| CalorieCounting.FewGroupsAllCounted | src/bin/01.rs:30-31 | with three groups or fewer, part two adds up all of them |
| CalorieCounting.LastThreeAreLargest | src/bin/01.rs:30-31 | every sum left out is at most every sum added |
| CalorieCounting.SumAtLeastLast | src/bin/01.rs:31 | a total is at least its last element |
| CalorieCounting.PartTwoAtLeastPartOne | src/bin/01.rs:1-32 | part two's answer is at least part one's, since the largest group is among the three summed |
| CalorieCounting.GroupLinesPlain | src/bin/01.rs:2 | no line of a written group holds a line break |
| CalorieCounting.NumberLinesPlain | src/bin/01.rs:2 | no written number holds a line break |
| CalorieCounting.ReadBack | src/bin/01.rs:2-14 | splitting the text of some groups on `\n` and reading it gives back each group's sum, in order |
| CalorieCounting.NumberLinesGroup | src/bin/01.rs:5-14 | a group's lines and its blank line record the running sum plus the group's total |
| CalorieCounting.NumericLineAdds | src/bin/01.rs:6-7 | a numeric line adds its value to the running sum |
| CalorieCounting.GroupLinesRoundTrip | src/bin/01.rs:5-14 | the lines of a list of groups record each group's sum, in order |
| CalorieCounting.ExampleAnswers | src/bin/01.rs:44-55 | `test_part_one` and `test_part_two`: 24000 and 45000 |
| CalorieCounting.ExampleGroupSums | src/bin/01.rs:44-55 | the example's groups sum to 6000, 4000, 11000, 24000, 10000 |
| CalorieCounting.ExampleMax | src/bin/01.rs:44-49 | their largest is 24000 |
| CalorieCounting.ExampleLastThree | src/bin/01.rs:51-55 | their three largest add up to 45000 |
| Rucksack.Score | src/bin/03.rs:1-9 | lower-case letters score exactly 1-26, upper-case letters exactly 27-52, and every other character 0 |
| Rucksack.Letter | src/bin/03.rs:1-9 | every priority from 1 to 52 names a letter |
| Rucksack.ScoreOfLetter | src/bin/03.rs:1-9 | the letter named by a priority scores that priority |
| Rucksack.LetterOfScore | src/bin/03.rs:1-9 | a letter is the one its score names |
| Rucksack.ScoreInjective | src/bin/03.rs:1-9 | two characters with the same non-zero score are the same letter |
| Rucksack.ScoreFollowsAlphabet | src/bin/03.rs:2-7 | within each case, scores follow the alphabet |
| Rucksack.ScoreExamples | src/bin/03.rs:29-35 | `test_score`: `a` 1, `z` 26, `A` 27, `Z` 52 |
| BeaconExclusion.Dist | src/bin/15.rs:18-20 | the taxicab distance is zero exactly between equal points |
| BeaconExclusion.Length | src/bin/15.rs:21-23 | the length is the distance to the origin, zero exactly at the origin |
| BeaconExclusion.DistSymmetric | src/bin/15.rs:18-20 | the distance is symmetric |
| BeaconExclusion.DistTriangle | src/bin/15.rs:18-20 | the distance obeys the triangle inequality |
| BeaconExclusion.DistOnRow | src/bin/15.rs:87-90 | the distance from a sensor to a point of the scanned row |
| BeaconExclusion.ParsePoint | src/bin/15.rs:33-41 | `parse_point` consumes input whenever it parses |
| BeaconExclusion.ParseReport | src/bin/15.rs:43-55 | `parse_single_input` consumes input whenever it parses |
| BeaconExclusion.ParsersProgress | src/bin/15.rs:57-59 | the report parser and the line break make the progress `separated_list0` needs |
| BeaconExclusion.PointRoundTrip | src/bin/15.rs:33-41 | a point written as `x=a, y=b` with coordinates within `i32` reads back as itself |
| BeaconExclusion.FourPieces | src/bin/15.rs:33-55 | how a four-piece line regroups as the parser reads it |
| BeaconExclusion.PointSteps | src/bin/15.rs:33-41 | `parse_point` from the results of its four steps |
| BeaconExclusion.ReportSteps | src/bin/15.rs:43-55 | `parse_single_input` from the results of its four steps |
| BeaconExclusion.ReportRoundTrip | src/bin/15.rs:43-55 | a written report line reads back as the report |
| BeaconExclusion.Beacons | src/bin/15.rs:96-98 | the set of reported beacons holds exactly the points some report names as its beacon |
| BeaconExclusion.CoveredOnRowMembers | src/bin/15.rs:86-95 | the scan marks exactly the points of the row between the bounds that some sensor is at least as close to as to its own beacon |
| BeaconExclusion.MinLeftIsMinimum | src/bin/15.rs:73-77 | `min_x` is the smallest left edge, and is one of them |
| BeaconExclusion.MaxRightIsMaximum | src/bin/15.rs:78-82 | `max_x` is the largest right edge, and is one of them |
| BeaconExclusion.ExcludedMembers | src/bin/15.rs:71-98 | a point is counted exactly when it is on the scanned row between the bounds, inside some sensor's zone, and no reported beacon |
| BeaconExclusion.BoundsHoldEveryZone | src/bin/15.rs:73-82 | every covered point of the row lies between `min_x` and `max_x`, so the bounds lose nothing |
| BeaconExclusion.PartOne | src/bin/15.rs:61-101 | `part_one` counts the excluded points, cast `as u32`; an input not fully parsed, or with no report (the `min`/`max` `expect`), is an error |
| BeaconExclusion.MarkCovered | src/bin/15.rs:86-95 | the double loop inserts exactly the covered points of `min_x..max_x` |
| BeaconExclusion.RemoveBeacons | src/bin/15.rs:96-98 | the last loop removes exactly the reported beacons |
| BeaconExclusion.FormatReports | src/bin/15.rs:57-59 | one written line per report |
| BeaconExclusion.ReportsRoundTrip | src/bin/15.rs:57-59 | the text of some reports reads back whole; a final line break is left over |
| BeaconExclusion.ReportsRead | src/bin/15.rs:57-59 | the text of some reports, with nothing after it, reads back completely |
| BeaconExclusion.SegmentMembers | src/bin/15.rs:87-88 | a segment of the row holds exactly its points |
| BeaconExclusion.SegmentSize | src/bin/15.rs:87-88 | a segment of `b - a` columns holds `b - a` points |
| BeaconExclusion.CoveredStretch | src/bin/15.rs:86-95 | when the zones meet the row in one stretch inside the bounds, the scan marks exactly that stretch |
| BeaconExclusion.ExampleCoverage | src/bin/15.rs:117-121 | on the example's row 10 the zones cover exactly `-2 <= x <= 24` |
| BeaconExclusion.ExampleZone | src/bin/15.rs:117-121 | each example sensor's zone meets row 10 inside that stretch |
| BeaconExclusion.ExampleBeaconsOnRow | src/bin/15.rs:117-121 | the only example beacon on row 10 is `(2, 10)` |
| BeaconExclusion.ExampleBeacon | src/bin/15.rs:117-121 | an example beacon on row 10 is `(2, 10)` |
| BeaconExclusion.ExampleBounds | src/bin/15.rs:71-82 | on the example the scan runs over row 10, from at most -2 to at least 25 |
| BeaconExclusion.StretchCount | src/bin/15.rs:86-100 | a covered stretch holding one beacon counts one point fewer than its width |
| BeaconExclusion.RemoveOnePresent | src/bin/15.rs:96-98 | removing a set that meets the marked points in one point removes that point only |
| BeaconExclusion.ExampleFits | src/bin/15.rs:117-121 | every example coordinate fits in `i32` |
| BeaconExclusion.ExampleParses | src/bin/15.rs:117-121 | the example's lines read back completely |
| BeaconExclusion.ExampleTrailingNewline | src/bin/15.rs:57-68 | with a line break after the last report that line break is left over, the source's `did not fully parse` panic |
| BeaconExclusion.ExampleRowCoverage | src/bin/15.rs:117-121 | the example's row coverage, for every `x` |
| BeaconExclusion.ExampleRowBeacons | src/bin/15.rs:117-121 | the example's beacons on the scanned stretch |
| BeaconExclusion.ExampleAnswer | src/bin/15.rs:117-121 | `test_part_one`: 26 |
| Parsing.TakeWhile1 | src/bin/07.rs:32 | `take_till1` and friends: succeeds exactly on a first matching character, splits the input into the longest matching prefix and the rest |
| Parsing.Tag | src/bin/05.rs:20 | `tag(t)` succeeds exactly when the input starts with `t`, and leaves what follows |
| Parsing.NatToString | src/bin/05.rs:56 | the decimal text of a number has no leading zero and reads back as the number |
| Parsing.U32 | src/bin/05.rs:56 | `complete::u32` yields a value within `u32` and stops before any further digit |
| Parsing.I32 | src/bin/10.rs:24 | `complete::i32` yields a value within `i32` and stops before any further digit |
| Parsing.U32RoundTrip | src/bin/05.rs:56 | a written `u32` reads back as itself |
| Parsing.I32RoundTrip | src/bin/10.rs:24 | a written `i32`, negative ones with `-`, reads back as itself |
| Parsing.SeparatedList0 | src/bin/15.rs:58 | `separated_list0` never fails and yields no element exactly when the first element does not parse |
| Parsing.SeparatedList1 | src/bin/05.rs:65 | `separated_list1` succeeds exactly when the first element parses |
| Parsing.SeparatedListOfLines | src/bin/15.rs:58 | lines that each read as one item, joined by line breaks, read back as the items; a final line break is left over |
| Parsing.Many1 | src/bin/07.rs:65 | `many1` succeeds exactly when the first element parses, and consumes input |
| Parsing.SeparatedTailOfPrefixed | src/bin/05.rs:25-28 | the repeated part of `separated_list1` reads texts each preceded by a separator back as their items, and stops where no separator and element follow |
| Parsing.ManyTailOfConcat | src/bin/05.rs:30 | the repeated part of `many1` reads texts written one after another back as their items, and stops where no element follows |
| Parsing.Split | src/bin/01.rs:2 | `split('\n')` gives at least one piece and no piece holds the separator |
| Parsing.JoinSplit | src/bin/01.rs:2 | joining the pieces of `split` gives back the text |
| Parsing.SplitJoin | src/bin/01.rs:2 | splitting pieces joined by the separator gives back the pieces |
| Parsing.SplitOnce | src/bin/04.rs:38 | `split_once` fails exactly when the separator is missing, and otherwise splits at its first occurrence |
| Parsing.Lines | src/bin/04.rs:55 | no line of `lines()` holds a line break |
| Parsing.LinesAsSplit | src/bin/04.rs:55 | without carriage returns, `lines()` is `split('\n')` without a final empty piece |
| Parsing.LinesUnlines | src/bin/04.rs:55 | `lines()` on lines each closed by a line break gives back the lines |
| Parsing.ParseU32Str | src/bin/01.rs:2 | `str::parse::<u32>()` yields a value within `u32`, from text starting with a digit or `+` |
| Parsing.ParseU32StrRoundTrip | src/bin/01.rs:2 | a written `u32` parses back as itself |

## Left out

- `main`, `advent_of_code::read_file` and the `solve!` macro in every file: file input and command-line plumbing.
- `dbg!` and `println!` calls: debug output with no effect on the results.
- src/bin/02.rs: an unfinished solver; its `part_one` ignores what it parses and returns a constant.
- The `part_two` functions of src/bin/09.rs, 10.rs, 13.rs and 15.rs, and both parts of src/bin/03.rs, only return `None`.
- Fixed-width arithmetic is not modelled: numbers are unbounded integers. This covers the `i64` evaluation of src/bin/21.rs, the `u32` sums of src/bin/01.rs, 07.rs and 13.rs, the `i32` coordinates and distances of src/bin/15.rs, and the `i32` register of src/bin/10.rs. Parsed numbers are still range-checked as `nom`'s `u32`/`i32` readers do.
- The final casts `as u32` in src/bin/10.rs and src/bin/15.rs are kept, as a reduction modulo 2^32.
- `nom` internals: each parser is modelled by the grammar it accepts and the rest it leaves, not by `IResult`'s error kinds.
- `HashMap` and `HashSet` are Dafny maps and sets; iteration order is not modelled. The sum in `part_one` of src/bin/07.rs is stated order-free (`NoSpace.SmallTotalTake`).
- `sort_unstable` in src/bin/01.rs is a library call, modelled by its result: an ascending permutation built by insertion.
- NoSpace.CombinedSizes: the source visits directories deepest first, this loop visits them last-listed first. The resulting map is the same, because directories that share a path keep their relative order.
- `Utf8PathBuf` is a list of path components. `push` splits a name at '/' and drops empty pieces; a name starting with '/' replaces the path. `pop` drops the last component; the root and the empty path have no parent. Paths are equal exactly when their components are.
- NoSpace.Components keeps a `.` piece as a component, where `Utf8PathBuf` drops one that is not at the start of the path. Directory names in a terminal transcript do not contain `.` pieces.
- The example input files the source's tests read are not part of the repository. The worked examples use the published puzzle examples. For src/bin/01.rs the text ends with a line break; for src/bin/15.rs it does not, since the source rejects a final line break there (`BeaconExclusion.ExampleTrailingNewline`). For src/bin/05.rs the drawing and for src/bin/09.rs the motions are proved from their text; the example of src/bin/09.rs has no final line break, since `part_one` rejects text left after the motions. For src/bin/05.rs' moves and for src/bin/07.rs, 13.rs and 21.rs the examples start from the parsed structures, with the parsers covered by round-trip lemmas.
- CathodeRay.PartOne: the example answer 13140 of `test_part_one` (src/bin/10.rs:76-79) is not proved, because its 146-instruction example program is read from a file that is not in the repository and the puzzle text does not reproduce it here. `CathodeRay.SmallProgram` follows the three-instruction program of the puzzle instead.
- The literal-string parser tests `test_file` and `test_parser` of src/bin/07.rs are not modelled. `test_ls` is modelled by `NoSpace.LsOfTwo` for any two entries.
- The packet-pair example of `test_is_in_the_right_order_example_8_false` in src/bin/13.rs is stated on packet values, not on the text.
- The six window examples of src/bin/06.rs take the datastream as a predicate, one character per position, instead of a string literal.
- RopeBridge.Knot.Follow: the source panics when the head is more than two away on an axis. This is the method's precondition, not an error value.
- TuningTrouble.PartOne and TuningTrouble.PartTwoAsWritten: inputs shorter than the window make the source's `usize` subtraction panic. This is a precondition.
- MonkeyMath.SolveSecondBalances and MonkeyMath.RootBalances: proved only when every inversion on the path is exact. With truncating division the source's answer can miss (`TruncatingInversionIsInexact`).
- NoSpace.PartOne and NoSpace.PartTwo require that summing a directory never leads back into itself (`Terminates`). The source does not check this and would recurse forever.
- MonkeyMath.PartOne and MonkeyMath.PartTwo require that evaluating `root` ends within `depth` levels (`Finite`; for part two, in the map without `humn`). This excludes monkeys whose operands lead back to themselves. The source does not check this and would recurse forever on such input.

## Findings

| source | as written | input that shows it | evidently intended | confidence | as-written member | corrected member |
|---|---|---|---|---|---|---|
| src/bin/06.rs:23 | `part_two` scans window starts `0..(len - 14 - 1)`, so the last two windows of fourteen characters are never examined | `aabcdefghijklmn`: the only marker ends at position 15, and the loop as written has no window start | scan `0..(len - 13)`, as `part_one` does for windows of four | not executed | TuningTrouble.PartTwoAsWritten, TuningTrouble.LastWindowsMissed | TuningTrouble.PartTwo |
