/** Monkey math (src/bin/21.rs): a graph of named monkeys, each yelling a
    constant or the result of an operation on two other monkeys' numbers.
    Part one evaluates `root`; part two removes `humn` and solves for the
    number it must yell so that root's two operands are equal, by walking
    from root down to the missing name and undoing one operation per step. */
module MonkeyMath {
  import opened Wrappers
  import opened Parsing

  datatype Operator = Plus | Minus | Multiply | Divide

  datatype Monkey =
    | Const(value: int)
    | Operation(first: string, second: string, op: Operator)

  type Monkeys = map<string, Monkey>

  /** The source's panics, as values. */
  datatype Error =
    | Unparsed(rest: string)        // input not fully consumed by the parser
    | Missing(name: string)         // a name looked up with `expect`
    | DivisionByZero                // Rust's integer `/` with a zero divisor
    | ConstOnPath(name: string)     // `solve_second` reached a constant
    | BothUnresolved(name: string)  // both operands depend on the removed name
    | BothResolved(name: string)    // neither operand depends on it
    | RootNotComposite              // `root` is a constant in part two

  const Root: string := "root"
  const Humn: string := "humn"

  // ---------------------------------------------------------------------------
  // Parsing

  function OperatorChar(op: Operator): char {
    match op
    case Plus => '+'
    case Minus => '-'
    case Multiply => '*'
    case Divide => '/'
  }

  /** The operator an operation line spells with one character. */
  function OperatorOf(c: char): (r: Option<Operator>)
    ensures r.Some? <==> c in "+-*/"
    ensures r.Some? ==> OperatorChar(r.value) == c
  {
    match c
    case '+' => Some(Plus)
    case '-' => Some(Minus)
    case '*' => Some(Multiply)
    case '/' => Some(Divide)
    case _ => None
  }

  lemma OperatorCharRoundTrip(op: Operator)
    ensures OperatorOf(OperatorChar(op)) == Some(op)
  {
  }

  /** `pair(alpha1, char(':'))`: the monkey's name and the colon after it. */
  function ParseNameColon(s: string): (r: Option<Parsed<string>>)
    ensures r.Some? ==> |r.value.rest| < |s| && IsName(r.value.value)
  {
    var name :- TakeWhile1(IsAlpha, s);
    var afterColon :- Tag(":", name.rest);
    Some(Parsed(name.value, afterColon))
  }

  /** `space1` then `alpha1`: an operand name after its blanks. */
  function ParseBlankName(s: string): (r: Option<Parsed<string>>)
    ensures r.Some? ==> |r.value.rest| < |s|
  {
    var blank :- TakeWhile1(IsSpace, s);
    TakeWhile1(IsAlpha, blank.rest)
  }

  /** `space1` then one of the four operator characters. */
  function ParseBlankOperator(s: string): (r: Option<Parsed<Operator>>)
    ensures r.Some? ==> |r.value.rest| < |s|
  {
    var blank :- TakeWhile1(IsSpace, s);
    var op :- if blank.rest == [] then None else OperatorOf(blank.rest[0]);
    Some(Parsed(op, blank.rest[1..]))
  }

  /** What follows the colon of an operation line: two operand names with
      an operator between them, each after one or more blanks. */
  function ParseOperands(s: string): (r: Option<Parsed<(string, Operator, string)>>)
    ensures r.Some? ==> |r.value.rest| < |s|
  {
    var first :- ParseBlankName(s);
    var op :- ParseBlankOperator(first.rest);
    var second :- ParseBlankName(op.rest);
    Some(Parsed((first.value, op.value, second.value), second.rest))
  }

  /** `name: first OP second`, each separated by one or more blanks. */
  function ParseOperatorMonkey(s: string): (r: Option<Parsed<(string, Monkey)>>)
    ensures r.Some? ==> |r.value.rest| < |s| && r.value.value.1.Operation?
  {
    var header :- ParseNameColon(s);
    var operands :- ParseOperands(header.rest);
    var (first, op, second) := operands.value;
    Some(Parsed((header.value, Operation(first, second, op)), operands.rest))
  }

  /** `pair(space1, i32)`: a constant after its blanks. */
  function ParseBlankI32(s: string): (r: Option<Parsed<int>>)
    ensures r.Some? ==> |r.value.rest| < |s| && I32_MIN <= r.value.value <= I32_MAX
  {
    var blank :- TakeWhile1(IsSpace, s);
    I32(blank.rest)
  }

  /** `name: <i32>`. */
  function ParseConstMonkey(s: string): (r: Option<Parsed<(string, Monkey)>>)
    ensures r.Some? ==> |r.value.rest| < |s| && r.value.value.1.Const?
    ensures r.Some? ==> I32_MIN <= r.value.value.1.value <= I32_MAX
  {
    var header :- ParseNameColon(s);
    var c :- ParseBlankI32(header.rest);
    Some(Parsed((header.value, Const(c.value)), c.rest))
  }

  /** `alt((parse_operator_monkey, parse_const_monkey))`. */
  function ParseMonkey(s: string): (r: Option<Parsed<(string, Monkey)>>)
    ensures r.Some? ==> |r.value.rest| < |s|
  {
    var op := ParseOperatorMonkey(s);
    if op.Some? then op else ParseConstMonkey(s)
  }

  lemma ParsersProgress()
    ensures NeverGrows(ParseMonkey) && SkipperConsumes(Newline)
  {
  }

  /** `separated_list0(newline, monkey)`: the entries in input order. */
  function ParseMonkeyList(s: string): Parsed<seq<(string, Monkey)>> {
    ParsersProgress();
    SeparatedList0(ParseMonkey, Newline, s)
  }

  /** The text of one monkey's line. */
  function FormatMonkey(name: string, m: Monkey): string {
    match m
    case Const(v) => name + ": " + IntToString(v)
    case Operation(a, b, op) => name + ": " + a + " " + [OperatorChar(op)] + " " + b
  }

  predicate IsName(s: string) { s != [] && forall i :: 0 <= i < |s| ==> IsAlpha(s[i]) }

  /** What the parser can produce: alphabetic names and 32-bit constants. */
  predicate Printable(name: string, m: Monkey) {
    && IsName(name)
    && (m.Const? ==> I32_MIN <= m.value <= I32_MAX)
    && (m.Operation? ==> IsName(m.first) && IsName(m.second))
  }

  /** Reading a monkey's line back gives the monkey, when the line is followed
      by the end of input or a line break. */
  lemma ParseMonkeyRoundTrip(name: string, m: Monkey, rest: string)
    requires Printable(name, m)
    requires rest == [] || rest[0] == '\n'
    ensures ParseMonkey(FormatMonkey(name, m) + rest) == Some(Parsed((name, m), rest))
  {
    if m.Const? {
      ConstLineRoundTrip(name, m.value, rest);
    } else {
      OperationLineRoundTrip(name, m.first, m.op, m.second, rest);
    }
  }

  lemma NameColonRoundTrip(name: string, rest: string)
    requires IsName(name)
    ensures ParseNameColon(name + (":" + rest)) == Some(Parsed(name, rest))
  {
    TakeWhile1OfConcat(IsAlpha, name, ":" + rest);
    TagOfConcat(":", rest);
  }

  lemma BlankNameRoundTrip(a: string, rest: string)
    requires IsName(a)
    requires rest == [] || !IsAlpha(rest[0])
    ensures ParseBlankName(" " + (a + rest)) == Some(Parsed(a, rest))
  {
    TakeWhile1OfConcat(IsSpace, " ", a + rest);
    TakeWhile1OfConcat(IsAlpha, a, rest);
  }

  lemma BlankOperatorRoundTrip(op: Operator, rest: string)
    ensures ParseBlankOperator(" " + ([OperatorChar(op)] + rest)) == Some(Parsed(op, rest))
  {
    var afterBlank := [OperatorChar(op)] + rest;
    TakeWhile1OfConcat(IsSpace, " ", afterBlank);
    OperatorCharRoundTrip(op);
    assert afterBlank[1..] == rest;
  }

  lemma OperandsRoundTrip(a: string, op: Operator, b: string, rest: string)
    requires IsName(a) && IsName(b)
    requires rest == [] || rest[0] == '\n'
    ensures ParseOperands(" " + (a + (" " + ([OperatorChar(op)] + (" " + (b + rest))))))
            == Some(Parsed((a, op, b), rest))
  {
    var afterOp := " " + (b + rest);
    BlankNameRoundTrip(a, " " + ([OperatorChar(op)] + afterOp));
    BlankOperatorRoundTrip(op, afterOp);
    BlankNameRoundTrip(b, rest);
  }

  lemma BlankI32RoundTrip(v: int, rest: string)
    requires I32_MIN <= v <= I32_MAX
    requires rest == [] || rest[0] == '\n'
    ensures ParseBlankI32(" " + (IntToString(v) + rest)) == Some(Parsed(v, rest))
    ensures ParseBlankName(" " + (IntToString(v) + rest)).None?
  {
    var number := IntToString(v);
    assert number[0] == '-' || IsDigit(number[0]);
    assert (number + rest)[0] == number[0];
    TakeWhile1OfConcat(IsSpace, " ", number + rest);
    I32RoundTrip(v, rest);
  }

  lemma ConstLineRoundTrip(name: string, v: int, rest: string)
    requires Printable(name, Const(v))
    requires rest == [] || rest[0] == '\n'
    ensures ParseMonkey(FormatMonkey(name, Const(v)) + rest) == Some(Parsed((name, Const(v)), rest))
  {
    var body := " " + (IntToString(v) + rest);
    assert FormatMonkey(name, Const(v)) + rest == name + (":" + body);
    NameColonRoundTrip(name, body);
    BlankI32RoundTrip(v, rest);
  }

  lemma OperationLineRoundTrip(name: string, a: string, op: Operator, b: string, rest: string)
    requires Printable(name, Operation(a, b, op))
    requires rest == [] || rest[0] == '\n'
    ensures ParseMonkey(FormatMonkey(name, Operation(a, b, op)) + rest)
            == Some(Parsed((name, Operation(a, b, op)), rest))
  {
    var operands := " " + (a + (" " + ([OperatorChar(op)] + (" " + (b + rest)))));
    assert FormatMonkey(name, Operation(a, b, op)) + rest == name + (":" + operands);
    NameColonRoundTrip(name, operands);
    OperandsRoundTrip(a, op, b, rest);
  }

  // ---------------------------------------------------------------------------
  // Building the map: later lines overwrite earlier ones

  /** The map that inserting `entries` in order into an empty map leaves. */
  function Graph(entries: seq<(string, Monkey)>): Monkeys {
    if entries == [] then map[]
    else Graph(entries[..|entries| - 1])[entries[|entries| - 1].0 := entries[|entries| - 1].1]
  }

  /** Every parsed line gives its name an entry. */
  lemma {:induction false} GraphKeys(entries: seq<(string, Monkey)>)
    ensures Graph(entries).Keys == set i | 0 <= i < |entries| :: entries[i].0
  {
    if entries != [] {
      var init := entries[..|entries| - 1];
      GraphKeys(init);
      var last := |entries| - 1;
      assert forall i :: 0 <= i < last ==> init[i] == entries[i];
      assert Graph(entries).Keys == Graph(init).Keys + {entries[last].0};
    }
  }

  /** A name's entry is the monkey on its last line. */
  lemma {:induction false} GraphLastWins(entries: seq<(string, Monkey)>, i: nat)
    requires i < |entries|
    requires forall j :: i < j < |entries| ==> entries[j].0 != entries[i].0
    ensures entries[i].0 in Graph(entries) && Graph(entries)[entries[i].0] == entries[i].1
  {
    if i < |entries| - 1 {
      var init := entries[..|entries| - 1];
      assert init[i] == entries[i];
      GraphLastWins(init, i);
    }
  }

  lemma GraphOfPrefix(entries: seq<(string, Monkey)>, i: nat)
    requires i < |entries|
    ensures Graph(entries[..i + 1]) == Graph(entries[..i])[entries[i].0 := entries[i].1]
  {
    assert entries[..i + 1][..i] == entries[..i];
  }

  /** `parse_monkeys`: the entries parsed from `input`, inserted one by one. */
  method ParseMonkeys(input: string) returns (monkeys: Monkeys, rest: string)
    ensures monkeys == Graph(ParseMonkeyList(input).value)
    ensures rest == ParseMonkeyList(input).rest
  {
    var parsed := ParseMonkeyList(input);
    var entries := parsed.value;
    monkeys := map[];
    for i := 0 to |entries|
      invariant monkeys == Graph(entries[..i])
    {
      GraphOfPrefix(entries, i);
      monkeys := monkeys[entries[i].0 := entries[i].1];
    }
    assert entries[..|entries|] == entries;
    rest := parsed.rest;
  }

  // ---------------------------------------------------------------------------
  // Arithmetic

  function Abs(x: int): nat { if x < 0 then -x else x }

  /** Rust's `/` on integers: the quotient rounded toward zero. */
  function TruncDiv(a: int, b: int): (q: int)
    requires b != 0
    ensures Abs(a - q * b) < Abs(b)
    ensures a - q * b == 0 || (a - q * b < 0 <==> a < 0)
  {
    var n, d := Abs(a), Abs(b);
    var m := n / d;
    assert n == m * d + n % d;
    if (a < 0) == (b < 0) then
      assert a - m * b == if a < 0 then -(n % d) else n % d;
      m
    else
      assert a - (-m) * b == if a < 0 then -(n % d) else n % d;
      -m
  }

  /** Dividing a multiple of `b` by `b` truncates nothing. */
  lemma TruncDivOfMultiple(m: int, b: int)
    requires b != 0
    ensures TruncDiv(m * b, b) == m
  {
    var q := TruncDiv(m * b, b);
    assert m * b - q * b == (m - q) * b;
    if m != q {
      AbsOfProduct(m - q, b);
    }
  }

  lemma AbsOfProduct(x: int, y: int)
    requires x != 0
    ensures Abs(x * y) >= Abs(y)
  {
    if x > 0 && y >= 0 {
      assert x * y >= y;
    } else if x > 0 {
      assert x * y <= y;
    } else if y >= 0 {
      assert x * y <= -y;
    } else {
      assert x * y >= -y;
    }
  }

  /** One operation on two numbers; only a zero divisor fails. */
  function Apply(op: Operator, x: int, y: int): (r: Result<int, Error>)
    ensures r.Err? <==> op == Divide && y == 0
    ensures r.Err? ==> r.error == DivisionByZero
  {
    match op
    case Plus => Ok(x + y)
    case Minus => Ok(x - y)
    case Multiply => Ok(x * y)
    case Divide => if y == 0 then Err(DivisionByZero) else Ok(TruncDiv(x, y))
  }

  // ---------------------------------------------------------------------------
  // Evaluation

  /** Evaluating `name` recurses through at most `depth` operations: the
      source has no cycle check, so callers must give it an acyclic graph.
      A missing name ends a path. */
  ghost predicate Finite(g: Monkeys, name: string, depth: nat)
    decreases depth
  {
    name in g && g[name].Operation? ==>
      depth > 0 && Finite(g, g[name].first, depth - 1) && Finite(g, g[name].second, depth - 1)
  }

  /** Every name reachable from `name` is present. */
  ghost predicate Closed(g: Monkeys, name: string, depth: nat)
    decreases depth
  {
    name in g &&
    (g[name].Operation? ==>
      depth > 0 && Closed(g, g[name].first, depth - 1) && Closed(g, g[name].second, depth - 1))
  }

  /** Every name reachable from `name` is present, except `unknown`. */
  ghost predicate ClosedExcept(g: Monkeys, unknown: string, name: string, depth: nat)
    decreases depth
  {
    name == unknown ||
    (name in g &&
     (g[name].Operation? ==>
       depth > 0 &&
       ClosedExcept(g, unknown, g[name].first, depth - 1) &&
       ClosedExcept(g, unknown, g[name].second, depth - 1)))
  }

  /** `unknown` is reachable from `name`. */
  ghost predicate Reaches(g: Monkeys, name: string, unknown: string, depth: nat)
    decreases depth
  {
    name == unknown ||
    (name in g && g[name].Operation? && depth > 0 &&
     (Reaches(g, g[name].first, unknown, depth - 1) || Reaches(g, g[name].second, unknown, depth - 1)))
  }

  /** `solve_first`: a constant's value, or the operation applied to both
      operands' values; an absent name is an error. */
  function SolveFirst(g: Monkeys, name: string, ghost depth: nat): (r: Result<int, Error>)
    requires Finite(g, name, depth)
    ensures r.Err? ==> r.error == DivisionByZero || (r.error.Missing? && r.error.name !in g)
    decreases depth
  {
    if name !in g then Err(Missing(name))
    else
      match g[name]
      case Const(c) => Ok(c)
      case Operation(first, second, op) =>
        var x :- SolveFirst(g, first, depth - 1);
        var y :- SolveFirst(g, second, depth - 1);
        Apply(op, x, y)
  }

  /** `try_solve`: as `SolveFirst`, but an absent name, or an operand that
      depends on one, is `None`. */
  function TrySolve(g: Monkeys, name: string, ghost depth: nat): (r: Result<Option<int>, Error>)
    requires Finite(g, name, depth)
    ensures r.Err? ==> r.error == DivisionByZero
    decreases depth
  {
    if name !in g then Ok(None)
    else
      match g[name]
      case Const(c) => Ok(Some(c))
      case Operation(first, second, op) =>
        var x :- TrySolve(g, first, depth - 1);
        var y :- TrySolve(g, second, depth - 1);
        if x.Some? && y.Some? then
          var v :- Apply(op, x.value, y.value);
          Ok(Some(v))
        else
          Ok(None)
  }

  /** A resolved `try_solve` value is the `solve_first` value, and the other way round. */
  lemma {:induction false} TrySolveAgrees(g: Monkeys, name: string, depth: nat, v: int)
    requires Finite(g, name, depth)
    ensures TrySolve(g, name, depth) == Ok(Some(v)) <==> SolveFirst(g, name, depth) == Ok(v)
    decreases depth
  {
    if name in g && g[name].Operation? {
      var m := g[name];
      var x, y := TrySolve(g, m.first, depth - 1), TrySolve(g, m.second, depth - 1);
      var a, b := SolveFirst(g, m.first, depth - 1), SolveFirst(g, m.second, depth - 1);
      if x.Ok? && x.value.Some? {
        TrySolveAgrees(g, m.first, depth - 1, x.value.value);
      }
      if a.Ok? {
        TrySolveAgrees(g, m.first, depth - 1, a.value);
      }
      if y.Ok? && y.value.Some? {
        TrySolveAgrees(g, m.second, depth - 1, y.value.value);
      }
      if b.Ok? {
        TrySolveAgrees(g, m.second, depth - 1, b.value);
      }
    }
  }

  /** Once `unknown` is removed, `try_solve` is unresolved exactly on the
      names from which `unknown` is reachable (when it does not divide by zero). */
  lemma {:induction false} TrySolveUnresolvedIffReaches(g: Monkeys, unknown: string, name: string, depth: nat)
    requires unknown !in g
    requires Finite(g, name, depth) && ClosedExcept(g, unknown, name, depth)
    requires TrySolve(g, name, depth).Ok?
    ensures TrySolve(g, name, depth).value.None? <==> Reaches(g, name, unknown, depth)
    decreases depth
  {
    if name in g && g[name].Operation? {
      var m := g[name];
      TrySolveUnresolvedIffReaches(g, unknown, m.first, depth - 1);
      TrySolveUnresolvedIffReaches(g, unknown, m.second, depth - 1);
    }
  }

  lemma {:induction false} ClosedIsFinite(g: Monkeys, name: string, depth: nat)
    requires Closed(g, name, depth)
    ensures Finite(g, name, depth)
    decreases depth
  {
    if g[name].Operation? {
      ClosedIsFinite(g, g[name].first, depth - 1);
      ClosedIsFinite(g, g[name].second, depth - 1);
    }
  }

  /** Removing a name from a graph in which everything reachable is present
      leaves only that name missing. */
  lemma {:induction false} RemoveLeavesClosedExcept(g: Monkeys, unknown: string, name: string, depth: nat)
    requires Closed(g, name, depth)
    ensures ClosedExcept(g - {unknown}, unknown, name, depth) && Finite(g - {unknown}, name, depth)
    decreases depth
  {
    if name != unknown && g[name].Operation? {
      RemoveLeavesClosedExcept(g, unknown, g[name].first, depth - 1);
      RemoveLeavesClosedExcept(g, unknown, g[name].second, depth - 1);
    }
  }

  /** Giving the missing name a constant keeps evaluation finite. */
  lemma {:induction false} FiniteSubstitute(g: Monkeys, unknown: string, c: int, name: string, depth: nat)
    requires unknown !in g && Finite(g, name, depth)
    ensures Finite(g[unknown := Const(c)], name, depth)
    decreases depth
  {
    if name in g && g[name].Operation? {
      FiniteSubstitute(g, unknown, c, g[name].first, depth - 1);
      FiniteSubstitute(g, unknown, c, g[name].second, depth - 1);
    }
  }

  /** A resolved name does not depend on the missing one: giving that name a
      constant leaves its value unchanged. */
  lemma {:induction false} ResolvedIgnoresSubstitution(g: Monkeys, unknown: string, c: int, name: string, depth: nat, v: int)
    requires unknown !in g && Finite(g, name, depth)
    requires TrySolve(g, name, depth) == Ok(Some(v))
    ensures Finite(g[unknown := Const(c)], name, depth)
    ensures SolveFirst(g[unknown := Const(c)], name, depth) == Ok(v)
    decreases depth
  {
    FiniteSubstitute(g, unknown, c, name, depth);
    var m := g[name];
    if m.Operation? {
      var x := TrySolve(g, m.first, depth - 1).value.value;
      var y := TrySolve(g, m.second, depth - 1).value.value;
      ResolvedIgnoresSubstitution(g, unknown, c, m.first, depth - 1, x);
      ResolvedIgnoresSubstitution(g, unknown, c, m.second, depth - 1, y);
    }
  }

  // ---------------------------------------------------------------------------
  // Solving for the missing name

  /** Which operand of an operation is resolved. */
  datatype Side = FirstKnown | SecondKnown

  /** The target for the unresolved operand, given the resolved operand
      `known` and the target `expected` for the operation. */
  function Inverse(op: Operator, side: Side, known: int, expected: int): (r: Result<int, Error>)
    ensures r.Err? ==> r.error == DivisionByZero
  {
    match side
    case FirstKnown =>
      (match op
       case Plus => Ok(expected - known)
       case Minus => Ok(known - expected)
       case Multiply => if known == 0 then Err(DivisionByZero) else Ok(TruncDiv(expected, known))
       case Divide => if expected == 0 then Err(DivisionByZero) else Ok(TruncDiv(known, expected)))
    case SecondKnown =>
      match op
      case Plus => Ok(expected - known)
      case Minus => Ok(known + expected)
      case Multiply => if known == 0 then Err(DivisionByZero) else Ok(TruncDiv(expected, known))
      case Divide => Ok(known * expected)
  }

  /** The operation with `known` on its resolved side and `x` on the other. */
  function Combine(op: Operator, side: Side, known: int, x: int): Result<int, Error> {
    match side
    case FirstKnown => Apply(op, known, x)
    case SecondKnown => Apply(op, x, known)
  }

  /** The inversion is exact: applying the operation to the inverted value
      gives back the target. */
  predicate Exact(op: Operator, side: Side, known: int, expected: int) {
    var x := Inverse(op, side, known, expected);
    x.Ok? && Combine(op, side, known, x.value) == Ok(expected)
  }

  /** The divisions an inversion performs leave no remainder, and the
      operand it produces is not a zero divisor. */
  predicate DividesExactly(op: Operator, side: Side, known: int, expected: int) {
    match op
    case Plus => true
    case Minus => true
    case Multiply => known != 0 && expected % known == 0
    case Divide =>
      if side == SecondKnown then known != 0
      else expected != 0 && known != 0 && known % expected == 0
  }

  /** Every inversion that divides exactly is exact; for multiplication the
      converse holds too. */
  lemma InversionExactWhenDivisible(op: Operator, side: Side, known: int, expected: int)
    ensures DividesExactly(op, side, known, expected) ==> Exact(op, side, known, expected)
    ensures op == Multiply ==> (Exact(op, side, known, expected) <==> DividesExactly(op, side, known, expected))
  {
    match op
    case Plus =>
    case Minus =>
    case Multiply => MultiplyInversion(side, known, expected);
    case Divide =>
      if DividesExactly(op, side, known, expected) {
        DivideInversion(side, known, expected);
      }
  }

  lemma MultiplyInversion(side: Side, known: int, expected: int)
    ensures Exact(Multiply, side, known, expected) <==> known != 0 && expected % known == 0
  {
    if known != 0 {
      var q := TruncDiv(expected, known);
      assert Inverse(Multiply, side, known, expected) == Ok(q);
      assert Combine(Multiply, side, known, q) == Ok(q * known) by {
        assert known * q == q * known;
      }
      if expected % known == 0 {
        var m := expected / known;
        assert expected == m * known;
        TruncDivOfMultiple(m, known);
      }
      if q * known == expected {
        MultipleHasNoRemainder(q, known);
      }
    }
  }

  lemma DivideInversion(side: Side, known: int, expected: int)
    requires DividesExactly(Divide, side, known, expected)
    ensures Exact(Divide, side, known, expected)
  {
    if side == SecondKnown {
      TruncDivOfMultiple(expected, known);
      assert known * expected == expected * known;
    } else {
      var m := known / expected;
      assert known == m * expected;
      TruncDivOfMultiple(m, expected);
      assert m != 0;
      TruncDivOfMultiple(expected, m);
      assert expected * m == m * expected;
    }
  }

  lemma MultipleHasNoRemainder(q: int, b: int)
    requires b != 0
    ensures (q * b) % b == 0
  {
    var n := q * b;
    var r := n % b;
    var d := n / b;
    assert n == d * b + r;
    assert (q - d) * b == r;
    if q != d {
      AbsOfProduct(q - d, b);
    }
  }

  /** An inversion that truncates need not be exact: 2 * x = 7 gives x = 3. */
  lemma TruncatingInversionIsInexact()
    ensures Inverse(Multiply, FirstKnown, 2, 7) == Ok(3)
    ensures !Exact(Multiply, FirstKnown, 2, 7)
  {
    assert TruncDiv(7, 2) == 3;
  }

  /** `solve_second`: from a name whose value depends on the missing one,
      with the value it must take, the value the missing name must take. */
  function SolveSecond(g: Monkeys, name: string, expected: int, ghost depth: nat): (r: Result<int, Error>)
    requires Finite(g, name, depth)
    ensures r.Ok? ==> TrySolve(g, name, depth) == Ok(None)
    ensures r.Err? ==> !r.error.Missing? && !r.error.Unparsed? && !r.error.RootNotComposite?
    decreases depth
  {
    if name !in g then Ok(expected)
    else
      match g[name]
      case Const(_) => Err(ConstOnPath(name))
      case Operation(first, second, op) =>
        var x :- TrySolve(g, first, depth - 1);
        var y :- TrySolve(g, second, depth - 1);
        if x.Some? && y.None? then
          var next :- Inverse(op, FirstKnown, x.value, expected);
          SolveSecond(g, second, next, depth - 1)
        else if x.None? && y.Some? then
          var next :- Inverse(op, SecondKnown, y.value, expected);
          SolveSecond(g, first, next, depth - 1)
        else if x.None? then
          Err(BothUnresolved(name))
        else
          Err(BothResolved(name))
  }

  /** Every inversion on the path `SolveSecond` takes from `name` is exact. */
  ghost predicate ExactAlong(g: Monkeys, name: string, expected: int, depth: nat)
    requires Finite(g, name, depth)
    decreases depth
  {
    name in g && g[name].Operation? ==>
      var m := g[name];
      var x, y := TrySolve(g, m.first, depth - 1), TrySolve(g, m.second, depth - 1);
      if x.Ok? && y.Ok? && x.value.Some? && y.value.None? then
        Exact(m.op, FirstKnown, x.value.value, expected) &&
        ExactAlong(g, m.second, Inverse(m.op, FirstKnown, x.value.value, expected).value, depth - 1)
      else if x.Ok? && y.Ok? && x.value.None? && y.value.Some? then
        Exact(m.op, SecondKnown, y.value.value, expected) &&
        ExactAlong(g, m.first, Inverse(m.op, SecondKnown, y.value.value, expected).value, depth - 1)
      else
        true
  }

  /** When every inversion is exact, giving the missing name the solver's
      answer makes `name` evaluate to the value it was solved for. */
  lemma {:induction false} SolveSecondBalances(g: Monkeys, unknown: string, name: string, expected: int, depth: nat)
    requires unknown !in g
    requires Finite(g, name, depth) && ClosedExcept(g, unknown, name, depth)
    requires SolveSecond(g, name, expected, depth).Ok?
    requires ExactAlong(g, name, expected, depth)
    ensures var h := g[unknown := Const(SolveSecond(g, name, expected, depth).value)];
            Finite(h, name, depth) && SolveFirst(h, name, depth) == Ok(expected)
    decreases depth
  {
    var answer := SolveSecond(g, name, expected, depth).value;
    var h := g[unknown := Const(answer)];
    FiniteSubstitute(g, unknown, answer, name, depth);
    if name in g {
      var m := g[name];
      var x, y := TrySolve(g, m.first, depth - 1).value, TrySolve(g, m.second, depth - 1).value;
      if x.Some? {
        var next := Inverse(m.op, FirstKnown, x.value, expected).value;
        SolveSecondBalances(g, unknown, m.second, next, depth - 1);
        ResolvedIgnoresSubstitution(g, unknown, answer, m.first, depth - 1, x.value);
      } else {
        var next := Inverse(m.op, SecondKnown, y.value, expected).value;
        SolveSecondBalances(g, unknown, m.first, next, depth - 1);
        ResolvedIgnoresSubstitution(g, unknown, answer, m.second, depth - 1, y.value);
      }
    }
  }

  // ---------------------------------------------------------------------------
  // The two parts

  /** `part_one`: root's value; input the parser does not consume is an error. */
  method PartOne(input: string, ghost depth: nat) returns (r: Result<int, Error>)
    requires var p := ParseMonkeyList(input); p.rest == [] ==> Finite(Graph(p.value), Root, depth)
    ensures var p := ParseMonkeyList(input);
            if p.rest != [] then r == Err(Unparsed(p.rest))
            else r == SolveFirst(Graph(p.value), Root, depth)
  {
    var monkeys, remaining := ParseMonkeys(input);
    if remaining != [] {
      return Err(Unparsed(remaining));
    }
    r := SolveFirst(monkeys, Root, depth);
  }

  /** After `humn` is removed, root's second operand evaluates to `target`
      and every inversion on the path to `humn` from its first operand is exact. */
  ghost predicate ExactSolve(g: Monkeys, depth: nat)
  {
    var h := g - {Humn};
    Root in h && h[Root].Operation? && depth > 0 && Finite(h, Root, depth) &&
    var target := SolveFirst(h, h[Root].second, depth - 1);
    target.Ok? && ExactAlong(h, h[Root].first, target.value, depth - 1)
  }

  /** Root's two operands evaluate to the same number. */
  ghost predicate RootBalanced(g: Monkeys, depth: nat)
  {
    Root in g && g[Root].Operation? && depth > 0 &&
    Finite(g, g[Root].first, depth - 1) && Finite(g, g[Root].second, depth - 1) &&
    SolveFirst(g, g[Root].first, depth - 1).Ok? &&
    SolveFirst(g, g[Root].first, depth - 1) == SolveFirst(g, g[Root].second, depth - 1)
  }

  /** The arithmetic of `part_two` after parsing, on the map with `humn` removed. */
  function SolveRoot(h: Monkeys, ghost depth: nat): (r: Result<int, Error>)
    requires Finite(h, Root, depth)
    ensures r.Ok? ==> Root in h && h[Root].Operation?
  {
    if Root !in h then Err(Missing(Root))
    else
      match h[Root]
      case Const(_) => Err(RootNotComposite)
      case Operation(first, second, _) =>
        var target :- SolveFirst(h, second, depth - 1);
        SolveSecond(h, first, target, depth - 1)
  }

  /** The headline property: when every name reachable from root is present
      and every inversion is exact, putting the answer in for `humn` makes
      root's operands equal. */
  lemma RootBalances(g: Monkeys, depth: nat)
    requires Closed(g, Root, depth) && ExactSolve(g, depth)
    requires SolveRoot(g - {Humn}, depth).Ok?
    ensures RootBalanced(g[Humn := Const(SolveRoot(g - {Humn}, depth).value)], depth)
  {
    var h := g - {Humn};
    var answer := SolveRoot(h, depth).value;
    var Operation(first, second, _) := h[Root];
    RemoveLeavesClosedExcept(g, Humn, first, depth - 1);
    RemoveLeavesClosedExcept(g, Humn, second, depth - 1);
    var target := SolveFirst(h, second, depth - 1).value;
    SolveSecondBalances(h, Humn, first, target, depth - 1);
    TrySolveAgrees(h, second, depth - 1, target);
    ResolvedIgnoresSubstitution(h, Humn, answer, second, depth - 1, target);
    assert h[Humn := Const(answer)] == g[Humn := Const(answer)];
  }

  /** `part_two`: remove `humn`, evaluate root's second operand, and solve
      root's first operand for that value. */
  method PartTwo(input: string, ghost depth: nat) returns (r: Result<int, Error>)
    requires var p := ParseMonkeyList(input); p.rest == [] ==> Finite(Graph(p.value) - {Humn}, Root, depth)
    ensures var p := ParseMonkeyList(input);
            if p.rest != [] then r == Err(Unparsed(p.rest))
            else r == SolveRoot(Graph(p.value) - {Humn}, depth)
    ensures var g := Graph(ParseMonkeyList(input).value);
            r.Ok? && Closed(g, Root, depth) && ExactSolve(g, depth) ==>
              RootBalanced(g[Humn := Const(r.value)], depth)
  {
    var monkeys, remaining := ParseMonkeys(input);
    if remaining != [] {
      return Err(Unparsed(remaining));
    }
    ghost var g := monkeys;
    monkeys := monkeys - {Humn};
    if Root !in monkeys {
      return Err(Missing(Root));
    }
    match monkeys[Root]
    case Const(_) =>
      r := Err(RootNotComposite);
    case Operation(first, second, _) =>
      var target := SolveFirst(monkeys, second, depth - 1);
      if target.Err? {
        return Err(target.error);
      }
      r := SolveSecond(monkeys, first, target.value, depth - 1);
    if r.Ok? && Closed(g, Root, depth) && ExactSolve(g, depth) {
      RootBalances(g, depth);
    }
  }

  // ---------------------------------------------------------------------------
  // The puzzle's example

  function Example(): Monkeys {
    map[
      "root" := Operation("pppw", "sjmn", Plus),
      "dbpl" := Const(5),
      "cczh" := Operation("sllz", "lgvd", Plus),
      "zczc" := Const(2),
      "ptdq" := Operation("humn", "dvpt", Minus),
      "dvpt" := Const(3),
      "lfqf" := Const(4),
      "humn" := Const(5),
      "ljgn" := Const(2),
      "sjmn" := Operation("drzm", "dbpl", Multiply),
      "sllz" := Const(4),
      "pppw" := Operation("cczh", "lfqf", Divide),
      "lgvd" := Operation("ljgn", "ptdq", Multiply),
      "drzm" := Operation("hmdt", "zczc", Minus),
      "hmdt" := Const(32)
    ]
  }

  lemma ExampleEntries1()
    ensures var g := Example();
      && g["root"] == Operation("pppw", "sjmn", Plus)
      && g["dbpl"] == Const(5)
      && g["cczh"] == Operation("sllz", "lgvd", Plus)
      && g["zczc"] == Const(2)
      && g["ptdq"] == Operation("humn", "dvpt", Minus)
  {
  }

  lemma ExampleEntries2()
    ensures var g := Example();
      && g["dvpt"] == Const(3)
      && g["lfqf"] == Const(4)
      && g["humn"] == Const(5)
      && g["ljgn"] == Const(2)
      && g["sjmn"] == Operation("drzm", "dbpl", Multiply)
  {
  }

  lemma ExampleEntries3()
    ensures var g := Example();
      && g["sllz"] == Const(4)
      && g["pppw"] == Operation("cczh", "lfqf", Divide)
      && g["lgvd"] == Operation("ljgn", "ptdq", Multiply)
      && g["drzm"] == Operation("hmdt", "zczc", Minus)
      && g["hmdt"] == Const(32)
  {
  }

  lemma ExampleEntries()
    ensures var g := Example();
      && g["root"] == Operation("pppw", "sjmn", Plus)
      && g["dbpl"] == Const(5)
      && g["cczh"] == Operation("sllz", "lgvd", Plus)
      && g["zczc"] == Const(2)
      && g["ptdq"] == Operation("humn", "dvpt", Minus)
      && g["dvpt"] == Const(3)
      && g["lfqf"] == Const(4)
      && g["humn"] == Const(5)
      && g["ljgn"] == Const(2)
      && g["sjmn"] == Operation("drzm", "dbpl", Multiply)
      && g["sllz"] == Const(4)
      && g["pppw"] == Operation("cczh", "lfqf", Divide)
      && g["lgvd"] == Operation("ljgn", "ptdq", Multiply)
      && g["drzm"] == Operation("hmdt", "zczc", Minus)
      && g["hmdt"] == Const(32)
  {
    ExampleEntries1();
    ExampleEntries2();
    ExampleEntries3();
  }

  /** Every name in the example is defined, and evaluation is at most six deep. */
  lemma ExampleClosed()
    ensures Closed(Example(), Root, 6)
  {
    var g := Example();
    ExampleEntries();
    assert Closed(g, "humn", 1) && Closed(g, "dvpt", 1);
    assert Closed(g, "ljgn", 2) && Closed(g, "ptdq", 2);
    assert Closed(g, "sllz", 3) && Closed(g, "lgvd", 3) && Closed(g, "hmdt", 3) && Closed(g, "zczc", 3);
    assert Closed(g, "cczh", 4) && Closed(g, "lfqf", 4) && Closed(g, "drzm", 4) && Closed(g, "dbpl", 4);
    assert Closed(g, "pppw", 5) && Closed(g, "sjmn", 5);
  }

  /** Root yells 152 in the example. */
  lemma ExamplePartOne()
    ensures Finite(Example(), Root, 6) && SolveFirst(Example(), Root, 6) == Ok(152)
  {
    var g := Example();
    ExampleClosed();
    ClosedIsFinite(g, Root, 6);
    ExampleEntries();
    assert SolveFirst(g, "ptdq", 2) == Ok(2);
    assert SolveFirst(g, "lgvd", 3) == Ok(4);
    assert SolveFirst(g, "cczh", 4) == Ok(8);
    assert SolveFirst(g, "pppw", 5) == Ok(2);
    assert SolveFirst(g, "drzm", 4) == Ok(30);
    assert SolveFirst(g, "sjmn", 5) == Ok(150);
  }

  /** With `humn` removed from the example, the solver answers 301. */
  lemma ExamplePartTwo()
    ensures Finite(Example() - {Humn}, Root, 6) && SolveRoot(Example() - {Humn}, 6) == Ok(301)
  {
    ExampleWithoutHumnFinite();
    ExampleWithoutHumnEntries();
    PathToHumn(Example() - {Humn});
  }

  /** Without `humn`, root's evaluation is still finite. */
  lemma ExampleWithoutHumnFinite()
    ensures Finite(Example() - {Humn}, Root, 6)
  {
    ExampleClosed();
    RemoveLeavesClosedExcept(Example(), Humn, Root, 6);
  }

  /** The example's entries once `humn` is gone. */
  lemma ExampleWithoutHumnEntries()
    ensures ExampleWithoutHumn(Example() - {Humn})
  {
    ExampleEntries();
  }

  /** The example's monkeys, `humn` left out. */
  predicate ExampleWithoutHumn(h: Monkeys) {
    && Humn !in h
    && "root" in h && h["root"] == Operation("pppw", "sjmn", Plus)
    && "pppw" in h && h["pppw"] == Operation("cczh", "lfqf", Divide)
    && "cczh" in h && h["cczh"] == Operation("sllz", "lgvd", Plus)
    && "lgvd" in h && h["lgvd"] == Operation("ljgn", "ptdq", Multiply)
    && "ptdq" in h && h["ptdq"] == Operation("humn", "dvpt", Minus)
    && "sjmn" in h && h["sjmn"] == Operation("drzm", "dbpl", Multiply)
    && "drzm" in h && h["drzm"] == Operation("hmdt", "zczc", Minus)
    && "lfqf" in h && h["lfqf"] == Const(4)
    && "sllz" in h && h["sllz"] == Const(4)
    && "ljgn" in h && h["ljgn"] == Const(2)
    && "dvpt" in h && h["dvpt"] == Const(3)
    && "dbpl" in h && h["dbpl"] == Const(5)
    && "hmdt" in h && h["hmdt"] == Const(32)
    && "zczc" in h && h["zczc"] == Const(2)
  }

  /** Part two on the example, one node at a time: root's right side is 150,
      and undoing each operation on the way down gives 301 for `humn`. */
  lemma PathToHumn(h: Monkeys)
    requires ExampleWithoutHumn(h) && Finite(h, Root, 6)
    ensures SolveRoot(h, 6) == Ok(301)
  {
    assert Finite(h, "pppw", 5) && Finite(h, "sjmn", 5);
    assert Finite(h, "cczh", 4) && Finite(h, "drzm", 4);
    assert Finite(h, "lgvd", 3);
    assert Finite(h, "ptdq", 2);
    FirstStep(h, "drzm", 4, 32, 2);
    FirstStep(h, "sjmn", 5, 30, 5);
    SecondStepFirstUnknown(h, "ptdq", 2, 298, 3, 301);
    SecondStepSecondUnknown(h, "lgvd", 3, 596, 2, 298);
    SecondStepSecondUnknown(h, "cczh", 4, 600, 4, 596);
    SecondStepFirstUnknown(h, "pppw", 5, 150, 4, 600);
  }

  /** `solve_first` on an operation whose operands are known. */
  lemma FirstStep(g: Monkeys, name: string, depth: nat, x: int, y: int)
    requires Finite(g, name, depth) && name in g && g[name].Operation?
    requires SolveFirst(g, g[name].first, depth - 1) == Ok(x)
    requires SolveFirst(g, g[name].second, depth - 1) == Ok(y)
    ensures SolveFirst(g, name, depth) == Apply(g[name].op, x, y)
  {
  }

  /** `solve_second` through an operation whose second operand is known. */
  lemma SecondStepFirstUnknown(g: Monkeys, name: string, depth: nat, expected: int, y: int, next: int)
    requires Finite(g, name, depth) && name in g && g[name].Operation?
    requires TrySolve(g, g[name].first, depth - 1) == Ok(None)
    requires TrySolve(g, g[name].second, depth - 1) == Ok(Some(y))
    requires Inverse(g[name].op, SecondKnown, y, expected) == Ok(next)
    ensures SolveSecond(g, name, expected, depth) == SolveSecond(g, g[name].first, next, depth - 1)
  {
  }

  /** `solve_second` through an operation whose first operand is known. */
  lemma SecondStepSecondUnknown(g: Monkeys, name: string, depth: nat, expected: int, x: int, next: int)
    requires Finite(g, name, depth) && name in g && g[name].Operation?
    requires TrySolve(g, g[name].first, depth - 1) == Ok(Some(x))
    requires TrySolve(g, g[name].second, depth - 1) == Ok(None)
    requires Inverse(g[name].op, FirstKnown, x, expected) == Ok(next)
    ensures SolveSecond(g, name, expected, depth) == SolveSecond(g, g[name].second, next, depth - 1)
  {
  }
}
