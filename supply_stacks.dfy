/** Supply stacks (src/bin/05.rs): a drawing of crate stacks, then a list of
    crane moves `move c from f to t`. Part one's crane moves crates one at a
    time, so a moved block lands reversed; part two's moves the block in its
    original order. The answer is the top crate of every non-empty stack. */
module SupplyStacks {
  import opened Wrappers
  import opened Parsing

  /** One row of the drawing: a crate letter or an empty slot per stack. */
  type Row = seq<Option<char>>

  datatype Move = Move(count: nat, from: nat, to: nat)

  /** The source's panics, and its parse failures, as values. */
  datatype Error =
    | ParseFailed                 // `parse_puzzle` reports an error
    | CrateOutsideStacks          // a row has a crate beyond the first row's width
    | Unparsed(rest: string)      // input left after the moves
    | InvalidMove(index: nat)     // a move the source panics on (see `ValidMove`)

  // ---------------------------------------------------------------------------
  // Parsing the drawing

  /** `alt((parse_empty_stack_elm, parse_single_create))`: three blanks, or
      `[`, any character, `]`. */
  function ParseCell(s: string): (r: Option<Parsed<Option<char>>>)
    ensures r.Some? ==> |r.value.rest| < |s|
  {
    var empty := Tag("   ", s);
    if empty.Some? then Some(Parsed(None, empty.value))
    else
      var afterOpen :- Tag("[", s);
      if afterOpen == [] then None
      else
        var afterClose :- Tag("]", afterOpen[1..]);
        Some(Parsed(Some(afterOpen[0]), afterClose))
  }

  /** `tag(" ")` as the one-argument separator `separated_list1` takes. */
  function Blank(s: string): (r: Option<string>)
    ensures r.Some? <==> |s| > 0 && s[0] == ' '
    ensures r.Some? ==> r.value == s[1..]
  {
    Tag(" ", s)
  }

  lemma CellProgress()
    ensures NeverGrows(ParseCell) && SkipperConsumes(Blank) && SkipperConsumes(Newline)
  {
  }

  /** `separated_list1(tag(" "), cell)`. */
  function ParseRow(s: string): (r: Option<Parsed<Row>>)
    ensures r.Some? ==> |r.value.rest| <= |s|
  {
    CellProgress();
    SeparatedList1(ParseCell, Blank, s)
  }

  /** `preceded(space1, digit1)`: one stack label. */
  function ParseLabel(s: string): (r: Option<Parsed<string>>)
    ensures r.Some? ==> |r.value.rest| < |s|
  {
    var blank :- TakeWhile1(IsSpace, s);
    TakeWhile1(IsDigit, blank.rest)
  }

  lemma DrawingProgress()
    ensures NeverGrows(ParseRow) && SkipperConsumes(Newline) && AlwaysConsumes(ParseLabel)
  {
  }

  /** The textual part of `parse_crates`: rows separated by line breaks, a
      line break, the stack labels and the blank space after them. */
  function ParseDrawing(s: string): (r: Option<Parsed<seq<Row>>>)
    ensures r.Some? ==> |r.value.value| >= 1
  {
    DrawingProgress();
    var rows :- SeparatedList1(ParseRow, Newline, s);
    var afterNewline :- Newline(rows.rest);
    var labels :- Many1(ParseLabel, afterNewline);
    var afterSpace :- TakeWhile1(IsMultispace, labels.rest);
    Some(Parsed(rows.value, afterSpace.rest))
  }

  // ---------------------------------------------------------------------------
  // Writing a drawing, and reading it back

  /** A slot as drawn: `[c]` for a crate, three blanks for an empty slot. */
  function FormatCell(cell: Option<char>): string {
    if cell.Some? then ['[', cell.value, ']'] else "   "
  }

  function CellTexts(cells: Row): seq<string> {
    seq(|cells|, i requires 0 <= i < |cells| => FormatCell(cells[i]))
  }

  /** A row as drawn: its slots with a blank between each two. */
  function FormatRow(row: Row): string
    requires |row| >= 1
  {
    FormatCell(row[0]) + Prefixed(" ", CellTexts(row[1..]))
  }

  function RowTexts(rows: seq<Row>): seq<string>
    requires forall k :: 0 <= k < |rows| ==> |rows[k]| >= 1
  {
    seq(|rows|, k requires 0 <= k < |rows| => FormatRow(rows[k]))
  }

  /** Label `k` as drawn: its number, after the blanks that centre it
      under its stack (one before the first label, three before the others). */
  function LabelText(k: nat): string {
    (if k == 1 then " " else "   ") + NatToString(k)
  }

  function LabelTexts(n: nat): seq<string> {
    seq(n, i requires 0 <= i < n => LabelText(i + 1))
  }

  /** The numbers `1` to `n` as text. */
  function LabelNames(n: nat): seq<string> {
    seq(n, i requires 0 <= i < n => NatToString(i + 1))
  }

  /** The label line ` 1   2 ...` of `n` stacks. */
  function LabelLine(n: nat): string {
    Concat(LabelTexts(n))
  }

  /** A drawing of `rows`, top row first, over `n` labels, with the blank
      space `gap` after them. */
  function DrawingText(rows: seq<Row>, n: nat, gap: string): string
    requires |rows| >= 1 && forall k :: 0 <= k < |rows| ==> |rows[k]| >= 1
    requires n >= 1
  {
    FormatRow(rows[0]) + Prefixed("\n", RowTexts(rows[1..])) + "\n" + LabelLine(n) + gap
  }

  /** Blank space, at least one character of it. */
  predicate Gap(gap: string) {
    gap != [] && forall i :: 0 <= i < |gap| ==> IsMultispace(gap[i])
  }

  predicate AnyText(x: string) { true }

  /** Text that does not start with a blank, so no further slot follows. */
  predicate NoBlankAhead(x: string) { x == [] || x[0] != ' ' }

  /** A drawn slot reads back, whatever follows it. */
  lemma CellRoundTrip(cell: Option<char>, more: string)
    ensures ParseCell(FormatCell(cell) + more) == Some(Parsed(cell, more))
  {
    var s := FormatCell(cell) + more;
    if cell.Some? {
      assert s[0] == '[';
      assert Tag("[", s) == Some(s[1..]);
      assert s[1..][0] == cell.value && s[1..][1..] == "]" + more;
      TagOfConcat("]", more);
    } else {
      TagOfConcat("   ", more);
    }
  }

  lemma CellsRead(cells: Row)
    ensures ReadsEach(ParseCell, CellTexts(cells), cells, AnyText)
  {
    forall i, x | 0 <= i < |cells| && AnyText(x)
      ensures ParseCell(CellTexts(cells)[i] + x) == Some(Parsed(cells[i], x))
    {
      CellRoundTrip(cells[i], x);
    }
  }

  lemma SeparatorsRead()
    ensures forall x {:trigger Blank(" " + x)} :: Blank(" " + x) == Some(x)
    ensures forall x {:trigger Newline("\n" + x)} :: Newline("\n" + x) == Some(x)
    ensures forall x {:trigger AnyText(" " + x)} :: AnyText(" " + x)
    ensures forall x {:trigger NoBlankAhead("\n" + x)} :: NoBlankAhead("\n" + x)
  {
    forall x ensures Blank(" " + x) == Some(x) && Newline("\n" + x) == Some(x) {
      assert (" " + x)[1..] == x && ("\n" + x)[1..] == x;
    }
  }

  /** A drawn row reads back, up to text that does not start with a blank. */
  lemma RowRoundTrip(row: Row, more: string)
    requires |row| >= 1 && NoBlankAhead(more)
    ensures ParseRow(FormatRow(row) + more) == Some(Parsed(row, more))
  {
    CellProgress();
    SeparatorsRead();
    var cells := row[1..];
    var tail := Prefixed(" ", CellTexts(cells)) + more;
    assert FormatRow(row) + more == FormatCell(row[0]) + tail;
    CellRoundTrip(row[0], tail);
    CellsRead(cells);
    SeparatedTailOfPrefixed(ParseCell, Blank, " ", CellTexts(cells), cells, AnyText, more);
    SeparatedList0Step(ParseCell, Blank, FormatRow(row) + more, row[0], tail, cells, more);
    assert [row[0]] + cells == row;
  }

  lemma RowsRead(rows: seq<Row>)
    requires forall k :: 0 <= k < |rows| ==> |rows[k]| >= 1
    ensures ReadsEach(ParseRow, RowTexts(rows), rows, NoBlankAhead)
  {
    forall i, x | 0 <= i < |rows| && NoBlankAhead(x)
      ensures ParseRow(RowTexts(rows)[i] + x) == Some(Parsed(rows[i], x))
    {
      RowRoundTrip(rows[i], x);
    }
  }

  /** One label: the blanks before it, then its digits. */
  lemma LabelRoundTrip(k: nat, rest: string)
    requires NoDigitAhead(rest)
    ensures ParseLabel(LabelText(k) + rest) == Some(Parsed(NatToString(k), rest))
  {
    var blank: string := if k == 1 then " " else "   ";
    var digits := NatToString(k);
    assert !IsSpace((digits + rest)[0]);
    TakeWhile1OfConcat(IsSpace, blank, digits + rest);
    assert LabelText(k) + rest == blank + (digits + rest);
    TakeWhile1OfConcat(IsDigit, digits, rest);
  }

  lemma LabelsRead(n: nat)
    ensures ReadsEach(ParseLabel, LabelTexts(n), LabelNames(n), NoDigitAhead)
  {
    forall i, x | 0 <= i < n && NoDigitAhead(x)
      ensures ParseLabel(LabelTexts(n)[i] + x) == Some(Parsed(LabelNames(n)[i], x))
    {
      LabelRoundTrip(i + 1, x);
    }
  }

  /** Every label starts with a blank, so no digit runs into it. */
  lemma LabelsStartBlank(n: nat)
    ensures forall i, x {:trigger NoDigitAhead(LabelTexts(n)[i] + x)} ::
              0 <= i < n ==> NoDigitAhead(LabelTexts(n)[i] + x)
  {
    forall i, x | 0 <= i < n ensures NoDigitAhead(LabelTexts(n)[i] + x) {
      assert (LabelTexts(n)[i] + x)[0] == ' ';
    }
  }

  /** The label line reads back as the numbers `1` to `n`, and the blank
      space after it as itself. */
  lemma LabelLineRoundTrip(n: nat, gap: string, rest: string)
    requires n >= 1 && Gap(gap)
    requires rest == [] || (!IsMultispace(rest[0]) && !IsDigit(rest[0]))
    ensures AlwaysConsumes(ParseLabel)
    ensures Many1(ParseLabel, LabelLine(n) + (gap + rest)) == Some(Parsed(LabelNames(n), gap + rest))
    ensures TakeWhile1(IsMultispace, gap + rest) == Some(Parsed(gap, rest))
  {
    DrawingProgress();
    GapRoundTrip(gap, rest);
    LabelsRead(n);
    LabelsStartBlank(n);
    ManyTailOfConcat(ParseLabel, LabelTexts(n), LabelNames(n), NoDigitAhead, gap + rest);
    ConcatCons(LabelTexts(n), gap + rest);
    assert ParseLabel(LabelLine(n) + (gap + rest)).Some?;
  }

  /** A line that starts with one blank and then something else is not a row. */
  lemma NotARow(t: string)
    requires |t| >= 2 && t[0] == ' ' && t[1] != ' '
    ensures ParseRow(t).None?
  {
    assert !("   " <= t);
    assert !("[" <= t);
  }

  /** Blank space ends the labels and is skipped by `multispace1`, up to
      what follows it. */
  lemma GapRoundTrip(gap: string, rest: string)
    requires Gap(gap)
    requires rest == [] || (!IsMultispace(rest[0]) && !IsDigit(rest[0]))
    ensures ParseLabel(gap + rest).None? && NoDigitAhead(gap + rest)
    ensures TakeWhile1(IsMultispace, gap + rest) == Some(Parsed(gap, rest))
  {
    TakeWhile1OfConcat(IsMultispace, gap, rest);
    var s := gap + rest;
    var k := SpanLength(IsSpace, s);
    assert k <= |gap|;
    if 0 < k {
      assert TakeWhile1(IsSpace, s) == Some(Parsed(s[..k], s[k..]));
      if k < |gap| {
        assert s[k..][0] == gap[k];
      } else {
        assert s[k..] == rest;
      }
    }
  }

  /** The drawn rows read back as those rows, up to the line break before
      a line that is not a row. */
  lemma RowsRoundTrip(rows: seq<Row>, afterRows: string)
    requires |rows| >= 1 && forall k :: 0 <= k < |rows| ==> |rows[k]| >= 1
    requires ParseRow(afterRows).None?
    ensures NeverGrows(ParseRow) && SkipperConsumes(Newline)
    ensures SeparatedList1(ParseRow, Newline, FormatRow(rows[0]) + Prefixed("\n", RowTexts(rows[1..])) + ("\n" + afterRows))
         == Some(Parsed(rows, "\n" + afterRows))
  {
    DrawingProgress();
    SeparatorsRead();
    var below := rows[1..];
    var more := "\n" + afterRows;
    var afterFirst := Prefixed("\n", RowTexts(below)) + more;
    var s := FormatRow(rows[0]) + Prefixed("\n", RowTexts(below)) + more;
    assert s == FormatRow(rows[0]) + afterFirst;
    assert Newline(more) == Some(afterRows);
    assert NoBlankAhead(afterFirst) by {
      if below != [] {
        PrefixedCons("\n", RowTexts(below), more);
      } else {
        assert afterFirst == more;
      }
    }
    RowRoundTrip(rows[0], afterFirst);
    RowsRead(below);
    SeparatedTailOfPrefixed(ParseRow, Newline, "\n", RowTexts(below), below, NoBlankAhead, more);
    SeparatedList0Step(ParseRow, Newline, s, rows[0], afterFirst, below, more);
    assert [rows[0]] + below == rows;
  }

  /** The label line is not a row: it starts with one blank and a digit. */
  lemma LabelLineNotARow(n: nat, more: string)
    requires n >= 1
    ensures ParseRow(LabelLine(n) + more).None?
  {
    var t := LabelLine(n) + more;
    ConcatCons(LabelTexts(n), more);
    assert LabelTexts(n)[0] == " " + NatToString(1);
    assert t[1] == NatToString(1)[0];
    NotARow(t);
  }

  /** `parse_crates` reads the rows, a line break, the labels and the blank
      space, in that order. */
  lemma DrawingParts(s: string, rows: seq<Row>, afterRows: string, names: seq<string>,
                     afterLabels: string, rest: string)
    requires NeverGrows(ParseRow) && SkipperConsumes(Newline) && AlwaysConsumes(ParseLabel)
    requires SeparatedList1(ParseRow, Newline, s) == Some(Parsed(rows, "\n" + afterRows))
    requires Many1(ParseLabel, afterRows) == Some(Parsed(names, afterLabels))
    requires TakeWhile1(IsMultispace, afterLabels).Some? && TakeWhile1(IsMultispace, afterLabels).value.rest == rest
    ensures ParseDrawing(s) == Some(Parsed(rows, rest))
  {
    assert ("\n" + afterRows)[1..] == afterRows;
  }

  lemma Regroup(a: string, b: string, c: string, d: string, e: string, f: string)
    ensures a + b + c + d + e + f == a + b + (c + (d + (e + f)))
  {
  }

  /** A written drawing reads back as its rows, leaving what follows the
      blank space after the labels. */
  lemma DrawingRoundTrip(rows: seq<Row>, n: nat, gap: string, rest: string)
    requires |rows| >= 1 && forall k :: 0 <= k < |rows| ==> |rows[k]| >= 1
    requires n >= 1 && Gap(gap)
    requires rest == [] || (!IsMultispace(rest[0]) && !IsDigit(rest[0]))
    ensures ParseDrawing(DrawingText(rows, n, gap) + rest) == Some(Parsed(rows, rest))
  {
    DrawingProgress();
    var afterRows := LabelLine(n) + (gap + rest);
    LabelLineNotARow(n, gap + rest);
    RowsRoundTrip(rows, afterRows);
    var s := DrawingText(rows, n, gap) + rest;
    Regroup(FormatRow(rows[0]), Prefixed("\n", RowTexts(rows[1..])), "\n", LabelLine(n), gap, rest);
    LabelLineRoundTrip(n, gap, rest);
    DrawingParts(s, rows, afterRows, LabelNames(n), gap + rest, rest);
  }

  // ---------------------------------------------------------------------------
  // Building the stacks

  /** The crate a row holds in stack `j`, if any. */
  function Cell(row: Row, j: nat): seq<char> {
    if j < |row| && row[j].Some? then [row[j].value] else []
  }

  /** Stack `j` as rows `k..` of the drawing build it: the lowest row first. */
  function Pile(rows: seq<Row>, k: nat, j: nat): seq<char>
    decreases |rows| - k
  {
    if k >= |rows| then [] else Pile(rows, k + 1, j) + Cell(rows[k], j)
  }

  /** Some row from `k` on has a crate beyond the first row's width. */
  predicate OverflowsFrom(rows: seq<Row>, k: nat)
    requires |rows| >= 1
  {
    exists r, j :: k <= r < |rows| && |rows[0]| <= j < |rows[r]| && rows[r][j].Some?
  }

  /** The inner loop of `parse_crates`: push each crate of one row onto its
      stack. A crate beyond the last stack is an index out of bounds. */
  method PushRow(stacks: array<seq<char>>, row: Row) returns (ok: bool)
    modifies stacks
    ensures ok <==> forall j :: stacks.Length <= j < |row| ==> row[j].None?
    ensures ok ==> forall j :: 0 <= j < stacks.Length ==> stacks[j] == old(stacks[j]) + Cell(row, j)
  {
    for i := 0 to |row|
      invariant forall j :: 0 <= j < stacks.Length ==>
        stacks[j] == old(stacks[j]) + (if j < i then Cell(row, j) else [])
      invariant forall j :: stacks.Length <= j < i ==> row[j].None?
    {
      if row[i].Some? {
        if i >= stacks.Length {
          return false;
        }
        stacks[i] := stacks[i] + [row[i].value];
      }
    }
    return true;
  }

  /** The loops of `parse_crates`: one stack per slot of the first row, then
      the rows from the bottom up, each crate pushed onto its stack. */
  method BuildStacks(rows: seq<Row>) returns (r: Option<seq<seq<char>>>)
    requires |rows| >= 1
    ensures r.None? <==> OverflowsFrom(rows, 0)
    ensures r.Some? ==> |r.value| == |rows[0]|
    ensures r.Some? ==> forall j :: 0 <= j < |r.value| ==> r.value[j] == Pile(rows, 0, j)
  {
    var width := |rows[0]|;
    var stacks := new seq<char>[width](_ => []);
    var k := |rows|;
    while k > 0
      invariant 0 <= k <= |rows|
      invariant !OverflowsFrom(rows, k)
      invariant forall j :: 0 <= j < width ==> stacks[j] == Pile(rows, k, j)
    {
      k := k - 1;
      var ok := PushRow(stacks, rows[k]);
      if !ok {
        assert OverflowsFrom(rows, 0) by {
          var j :| width <= j < |rows[k]| && rows[k][j].Some?;
          assert 0 <= k < |rows| && width <= j < |rows[k]| && rows[k][j].Some?;
        }
        return None;
      }
    }
    return Some(stacks[..]);
  }

  /** The stacks the drawing describes, when no crate overflows. */
  function Drawn(rows: seq<Row>): (r: seq<seq<char>>)
    requires |rows| >= 1
    ensures |r| == |rows[0]|
  {
    seq(|rows[0]|, (j: int) requires 0 <= j => Pile(rows, 0, j))
  }

  // ---------------------------------------------------------------------------
  // Parsing the moves

  /** A tag followed by a `u32`. */
  function ParseTagged(t: string, s: string): (r: Option<Parsed<nat>>)
    ensures r.Some? ==> |r.value.rest| < |s|
  {
    var after :- Tag(t, s);
    U32(after)
  }

  /** `parse_single_move`: `move <u32> from <u32> to <u32>`. */
  function ParseMove(s: string): (r: Option<Parsed<Move>>)
    ensures r.Some? ==> |r.value.rest| < |s|
  {
    var count :- ParseTagged("move ", s);
    var from :- ParseTagged(" from ", count.rest);
    var to :- ParseTagged(" to ", from.rest);
    Some(Parsed(Move(count.value, from.value, to.value), to.rest))
  }

  lemma MoveProgress()
    ensures NeverGrows(ParseMove) && SkipperConsumes(Newline)
  {
  }

  /** `parse_moves`: one or more moves separated by line breaks. */
  function ParseMoves(s: string): (r: Option<Parsed<seq<Move>>>)
    ensures r.Some? ==> |r.value.value| >= 1
  {
    MoveProgress();
    SeparatedList1(ParseMove, Newline, s)
  }

  function FormatMove(m: Move): string {
    "move " + NatToString(m.count) + " from " + NatToString(m.from) + " to " + NatToString(m.to)
  }

  lemma TaggedRoundTrip(t: string, n: nat, rest: string)
    requires n <= U32_MAX && NoDigitAhead(rest)
    ensures ParseTagged(t, t + (NatToString(n) + rest)) == Some(Parsed(n, rest))
  {
    TagOfConcat(t, NatToString(n) + rest);
    U32RoundTrip(n, rest);
  }

  /** Reading a move's text back gives the move. */
  lemma MoveRoundTrip(m: Move, rest: string)
    requires m.count <= U32_MAX && m.from <= U32_MAX && m.to <= U32_MAX
    requires NoDigitAhead(rest)
    ensures ParseMove(FormatMove(m) + rest) == Some(Parsed(m, rest))
  {
    var afterFrom := " to " + (NatToString(m.to) + rest);
    var afterCount := " from " + (NatToString(m.from) + afterFrom);
    assert FormatMove(m) + rest == "move " + (NatToString(m.count) + afterCount);
    assert ParseTagged("move ", FormatMove(m) + rest) == Some(Parsed(m.count, afterCount)) by {
      TaggedRoundTrip("move ", m.count, afterCount);
    }
    assert ParseTagged(" from ", afterCount) == Some(Parsed(m.from, afterFrom)) by {
      TaggedRoundTrip(" from ", m.from, afterFrom);
    }
    assert ParseTagged(" to ", afterFrom) == Some(Parsed(m.to, rest)) by {
      TaggedRoundTrip(" to ", m.to, rest);
    }
  }

  // ---------------------------------------------------------------------------
  // Moving crates

  /** The crates in the reverse order: Rust's `.rev()`. */
  function Reverse(s: seq<char>): (r: seq<char>)
    ensures |r| == |s|
  {
    if s == [] then [] else Reverse(s[1..]) + [s[0]]
  }

  /** The crate at position `i` of the reversed block is the `i`-th from its top. */
  lemma {:induction false} ReverseAt(s: seq<char>)
    ensures forall i :: 0 <= i < |s| ==> Reverse(s)[i] == s[|s| - 1 - i]
  {
    if s != [] {
      ReverseAt(s[1..]);
    }
  }

  lemma ReverseSnoc(s: seq<char>, c: char)
    ensures Reverse(s + [c]) == [c] + Reverse(s)
  {
    ReverseAt(s + [c]);
    ReverseAt(s);
    assert forall i :: 0 <= i < |s| + 1 ==> Reverse(s + [c])[i] == ([c] + Reverse(s))[i];
  }

  lemma ReverseReverse(s: seq<char>)
    ensures Reverse(Reverse(s)) == s
  {
    ReverseAt(s);
    ReverseAt(Reverse(s));
    assert forall i :: 0 <= i < |s| ==> Reverse(Reverse(s))[i] == s[i];
  }

  /** A move the source carries out without panicking: `from` names an
      existing stack (numbered from 1) holding at least `count` crates, and
      `to` is at least 1 (`mov.to - 1` on a `u32`). `to` is only indexed
      when a crate is pushed onto it, so it must name an existing stack only
      when `count` is not zero. */
  predicate ValidMove(stacks: seq<seq<char>>, m: Move) {
    && 1 <= m.from <= |stacks|
    && 1 <= m.to && (m.count > 0 ==> m.to <= |stacks|)
    && m.count <= |stacks[m.from - 1]|
  }

  /** The stacks after a move: the top `count` crates of `from` go on top of
      `to`, reversed unless `keepOrder`. */
  function Moved(stacks: seq<seq<char>>, m: Move, keepOrder: bool): seq<seq<char>>
    requires ValidMove(stacks, m)
  {
    if m.count == 0 then stacks
    else
      var drained := stacks[m.from - 1 := Kept(stacks, m)];
      drained[m.to - 1 := drained[m.to - 1] + Landing(stacks, m, keepOrder)]
  }

  /** A move of no crates changes nothing, whichever stack it names as `to`. */
  lemma EmptyMoveKeeps(stacks: seq<seq<char>>, m: Move, keepOrder: bool)
    requires 1 <= m.from <= |stacks| && 1 <= m.to && m.count == 0
    ensures ValidMove(stacks, m) && Moved(stacks, m, keepOrder) == stacks
  {
  }

  /** The top `count` crates of the source stack, lowest first. */
  function Block(stacks: seq<seq<char>>, m: Move): seq<char>
    requires ValidMove(stacks, m)
  {
    var src := stacks[m.from - 1];
    src[|src| - m.count..]
  }

  /** What stays on the source stack. */
  function Kept(stacks: seq<seq<char>>, m: Move): seq<char>
    requires ValidMove(stacks, m)
  {
    var src := stacks[m.from - 1];
    src[..|src| - m.count]
  }

  /** The block as it lands on the destination stack. */
  function Landing(stacks: seq<seq<char>>, m: Move, keepOrder: bool): seq<char>
    requires ValidMove(stacks, m)
  {
    if keepOrder then Block(stacks, m) else Reverse(Block(stacks, m))
  }

  /** `for c in drained { stacks[t].push(c) }`. */
  method PushAll(stacks: array<seq<char>>, t: nat, crates: seq<char>)
    requires crates != [] ==> t < stacks.Length
    modifies stacks
    ensures crates == [] ==> stacks[..] == old(stacks[..])
    ensures crates != [] ==> stacks[..] == old(stacks[..])[t := old(stacks[t]) + crates]
  {
    if crates == [] {
      return;
    }
    ghost var before := stacks[..];
    for i := 0 to |crates|
      invariant forall j :: 0 <= j < stacks.Length ==>
        stacks[j] == if j == t then before[t] + crates[..i] else before[j]
    {
      stacks[t] := stacks[t] + [crates[i]];
      assert crates[..i + 1] == crates[..i] + [crates[i]];
    }
    assert crates[..|crates|] == crates;
    assert stacks[..] == before[t := before[t] + crates];
  }

  /** One iteration of the move loop of `part_one` (`keepOrder` false) or
      `part_two` (`keepOrder` true): drain the top crates, then push them. */
  method ApplyMove(stacks: array<seq<char>>, m: Move, keepOrder: bool)
    requires ValidMove(stacks[..], m)
    modifies stacks
    ensures stacks[..] == Moved(old(stacks[..]), m, keepOrder)
  {
    ghost var before := stacks[..];
    var f := m.from - 1;
    var len := |stacks[f]|;
    var drained := stacks[f][len - m.count..];
    stacks[f] := stacks[f][..len - m.count];
    assert stacks[..] == before[f := before[f][..len - m.count]];
    if m.count == 0 {
      assert before[f][..len - m.count] == before[f];
      assert stacks[..] == before;
    }
    if !keepOrder {
      drained := Reverse(drained);
    }
    assert |drained| == m.count;
    PushAll(stacks, m.to - 1, drained);
  }

  function Total(stacks: seq<seq<char>>): nat {
    if stacks == [] then 0 else Total(stacks[..|stacks| - 1]) + |stacks[|stacks| - 1]|
  }

  lemma {:induction false} TotalUpdate(stacks: seq<seq<char>>, i: nat, x: seq<char>)
    requires i < |stacks|
    ensures Total(stacks[i := x]) + |stacks[i]| == Total(stacks) + |x|
    decreases |stacks|
  {
    var n := |stacks|;
    var u := stacks[i := x];
    if i < n - 1 {
      assert u[..n - 1] == stacks[..n - 1][i := x];
      TotalUpdate(stacks[..n - 1], i, x);
    } else {
      assert u[..n - 1] == stacks[..n - 1];
    }
  }

  /** A move keeps the number of crates. */
  lemma MovePreservesTotal(stacks: seq<seq<char>>, m: Move, keepOrder: bool)
    requires ValidMove(stacks, m)
    ensures |Moved(stacks, m, keepOrder)| == |stacks|
    ensures Total(Moved(stacks, m, keepOrder)) == Total(stacks)
  {
    if m.count > 0 {
      var src := stacks[m.from - 1];
      var block := src[|src| - m.count..];
      var drained := stacks[m.from - 1 := src[..|src| - m.count]];
      TotalUpdate(stacks, m.from - 1, src[..|src| - m.count]);
      var moved := if keepOrder then block else Reverse(block);
      TotalUpdate(drained, m.to - 1, drained[m.to - 1] + moved);
    }
  }

  /** A move only changes its two stacks. */
  lemma MoveLeavesOthers(stacks: seq<seq<char>>, m: Move, keepOrder: bool, j: nat)
    requires ValidMove(stacks, m)
    requires j < |stacks| && j != m.from - 1 && j != m.to - 1
    ensures Moved(stacks, m, keepOrder)[j] == stacks[j]
  {
  }

  /** The move in the other direction. */
  function Back(m: Move): Move {
    Move(m.count, m.to, m.from)
  }

  /** What a move between two different stacks does, stack by stack. */
  lemma MovedBetween(stacks: seq<seq<char>>, m: Move, keepOrder: bool)
    requires ValidMove(stacks, m) && m.to <= |stacks| && m.from != m.to
    ensures |Moved(stacks, m, keepOrder)| == |stacks|
    ensures Moved(stacks, m, keepOrder)[m.from - 1] == Kept(stacks, m)
    ensures Moved(stacks, m, keepOrder)[m.to - 1] == stacks[m.to - 1] + Landing(stacks, m, keepOrder)
    ensures forall j :: 0 <= j < |stacks| && j != m.from - 1 && j != m.to - 1 ==>
      Moved(stacks, m, keepOrder)[j] == stacks[j]
  {
  }

  /** Between two different stacks, moving the crates back, with the same
      crane, restores the stacks. */
  lemma MoveBackRestores(stacks: seq<seq<char>>, m: Move, keepOrder: bool)
    requires ValidMove(stacks, m) && m.to <= |stacks| && m.from != m.to
    ensures ValidMove(Moved(stacks, m, keepOrder), Back(m))
    ensures Moved(Moved(stacks, m, keepOrder), Back(m), keepOrder) == stacks
  {
    var f, t := m.from - 1, m.to - 1;
    var once := Moved(stacks, m, keepOrder);
    MovedBetween(stacks, m, keepOrder);
    var landed := Landing(stacks, m, keepOrder);
    assert |landed| == m.count;
    assert Block(once, Back(m)) == landed;
    assert Kept(once, Back(m)) == stacks[t];
    assert Landing(once, Back(m), keepOrder) == Block(stacks, m) by {
      if !keepOrder {
        ReverseReverse(Block(stacks, m));
      }
    }
    assert Kept(stacks, m) + Block(stacks, m) == stacks[f];
    var twice := Moved(once, Back(m), keepOrder);
    MovedBetween(once, Back(m), keepOrder);
    assert twice[f] == stacks[f];
    assert twice[t] == stacks[t];
    assert forall j :: 0 <= j < |stacks| ==> twice[j] == stacks[j];
  }

  /** `count` single-crate moves from `from` to `to`. */
  function OneAtATime(stacks: seq<seq<char>>, from: nat, to: nat, count: nat): seq<seq<char>>
    requires ValidMove(stacks, Move(count, from, to)) && from != to
    decreases count
  {
    if count == 0 then stacks
    else
      SingleThenRest(stacks, Move(count, from, to));
      OneAtATime(Moved(stacks, Move(1, from, to), false), from, to, count - 1)
  }

  /** The stacks after moving a single crate between two different stacks. */
  lemma SingleMoved(stacks: seq<seq<char>>, m: Move)
    requires ValidMove(stacks, m) && m.from != m.to && m.count == 1
    ensures var src := stacks[m.from - 1];
      && |Moved(stacks, m, false)| == |stacks|
      && Moved(stacks, m, false)[m.from - 1] == src[..|src| - 1]
      && Moved(stacks, m, false)[m.to - 1] == stacks[m.to - 1] + [src[|src| - 1]]
      && forall j :: 0 <= j < |stacks| && j != m.from - 1 && j != m.to - 1 ==>
           Moved(stacks, m, false)[j] == stacks[j]
  {
    var src := stacks[m.from - 1];
    assert Landing(stacks, m, false) == [src[|src| - 1]];
    MovedBetween(stacks, m, false);
  }

  /** Moving one crate, then the `count - 1` below it, is moving all `count`
      with part one's crane. */
  lemma SingleThenRest(stacks: seq<seq<char>>, m: Move)
    requires ValidMove(stacks, m) && m.from != m.to && m.count > 0
    ensures ValidMove(Moved(stacks, Move(1, m.from, m.to), false), Move(m.count - 1, m.from, m.to))
    ensures Moved(Moved(stacks, Move(1, m.from, m.to), false), Move(m.count - 1, m.from, m.to), false)
         == Moved(stacks, m, false)
  {
    var f, t := m.from - 1, m.to - 1;
    var src := stacks[f];
    var n := |src|;
    var one, rest := Move(1, m.from, m.to), Move(m.count - 1, m.from, m.to);
    var first := Moved(stacks, one, false);
    var lower := src[n - m.count..n - 1];
    var lhs, rhs := Moved(first, rest, false), Moved(stacks, m, false);
    SplitTop(stacks, m);
    SingleMoved(stacks, one);
    MovedBetween(first, rest, false);
    MovedBetween(stacks, m, false);
    TwoSteps(stacks, first, lhs, rhs, f, t, src[n - 1], lower);
  }

  /** After the top crate has moved, the rest of the block is the block
      without its top crate, and the same crates stay behind. */
  lemma SplitTop(stacks: seq<seq<char>>, m: Move)
    requires ValidMove(stacks, m) && m.from != m.to && m.count > 0
    ensures var first := Moved(stacks, Move(1, m.from, m.to), false);
      var rest := Move(m.count - 1, m.from, m.to);
      var src := stacks[m.from - 1];
      && ValidMove(first, rest)
      && Block(first, rest) == src[|src| - m.count..|src| - 1]
      && Block(stacks, m) == Block(first, rest) + [src[|src| - 1]]
      && Kept(first, rest) == Kept(stacks, m)
  {
    SingleMoved(stacks, Move(1, m.from, m.to));
    TopSlices(stacks[m.from - 1], m.count);
  }

  /** The arithmetic of `SingleThenRest`, on plain sequences: the top crate
      moved first, then the `lower` ones reversed on top of it. */
  lemma TwoSteps(stacks: seq<seq<char>>, first: seq<seq<char>>, lhs: seq<seq<char>>,
                 rhs: seq<seq<char>>, f: int, t: int, top: char, lower: seq<char>)
    requires 0 <= f < |stacks| && 0 <= t < |stacks| && f != t
    requires |first| == |lhs| == |rhs| == |stacks|
    requires first[t] == stacks[t] + [top] && lhs[f] == rhs[f]
    requires lhs[t] == first[t] + Reverse(lower)
    requires rhs[t] == stacks[t] + Reverse(lower + [top])
    requires forall j :: 0 <= j < |stacks| && j != f && j != t ==>
      first[j] == stacks[j] && lhs[j] == first[j] && rhs[j] == stacks[j]
    ensures lhs == rhs
  {
    ReverseSnoc(lower, top);
    assert lhs[t] == (stacks[t] + [top]) + Reverse(lower);
    assert rhs[t] == stacks[t] + ([top] + Reverse(lower));
    assert forall j :: 0 <= j < |lhs| ==> lhs[j] == rhs[j];
  }

  /** How the top `count` crates of a stack split off its top crate. */
  lemma TopSlices(src: seq<char>, count: nat)
    requires 0 < count <= |src|
    ensures var n := |src|;
      && src[n - count..] == src[n - count..n - 1] + [src[n - 1]]
      && src[..n - 1][n - 1 - (count - 1)..] == src[n - count..n - 1]
      && src[..n - 1][..n - 1 - (count - 1)] == src[..n - count]
  {
  }


  /** Part one's crane: a move of `count` crates is `count` moves of one
      crate, which is why the block lands reversed. */
  lemma {:induction false} MoveIsOneAtATime(stacks: seq<seq<char>>, m: Move)
    requires ValidMove(stacks, m) && m.from != m.to
    ensures Moved(stacks, m, false) == OneAtATime(stacks, m.from, m.to, m.count)
    decreases m.count
  {
    if m.count > 0 {
      SingleThenRest(stacks, m);
      MoveIsOneAtATime(Moved(stacks, Move(1, m.from, m.to), false), Move(m.count - 1, m.from, m.to));
    }
  }

  /** Every move from index `i` on, in order, or the first invalid one. */
  function MoveAll(stacks: seq<seq<char>>, moves: seq<Move>, keepOrder: bool, i: nat): (r: Result<seq<seq<char>>, Error>)
    ensures r.Ok? ==> |r.value| == |stacks|
    decreases |moves| - i
  {
    if i >= |moves| then Ok(stacks)
    else if !ValidMove(stacks, moves[i]) then Err(InvalidMove(i))
    else MoveAll(Moved(stacks, moves[i], keepOrder), moves, keepOrder, i + 1)
  }

  /** `move 0 from 1 to 9` on three stacks drains nothing, so the source never
      indexes stack 9 and carries on; so does the model. */
  lemma EmptyMoveToMissingStack(keepOrder: bool)
    ensures MoveAll([['Z', 'N'], ['M', 'C', 'D'], ['P']], [Move(0, 1, 9)], keepOrder, 0)
         == Ok([['Z', 'N'], ['M', 'C', 'D'], ['P']])
  {
    EmptyMoveKeeps([['Z', 'N'], ['M', 'C', 'D'], ['P']], Move(0, 1, 9), keepOrder);
  }

  // ---------------------------------------------------------------------------
  // The answer

  /** The top crate of every non-empty stack, in stack order. */
  function Tops(stacks: seq<seq<char>>): (r: string)
    ensures |r| <= |stacks|
  {
    if stacks == [] then []
    else
      var last := stacks[|stacks| - 1];
      Tops(stacks[..|stacks| - 1]) + (if last == [] then [] else [last[|last| - 1]])
  }

  /** With no empty stack, the answer has one letter per stack: its top crate. */
  lemma {:induction false} TopsOfNonEmpty(stacks: seq<seq<char>>)
    requires forall j :: 0 <= j < |stacks| ==> stacks[j] != []
    ensures |Tops(stacks)| == |stacks|
    ensures forall j :: 0 <= j < |stacks| ==> Tops(stacks)[j] == stacks[j][|stacks[j]| - 1]
  {
    if stacks != [] {
      var n := |stacks|;
      var init, last := stacks[..n - 1], stacks[n - 1];
      TopsOfNonEmpty(init);
      var tops := Tops(stacks);
      assert tops == Tops(init) + [last[|last| - 1]];
      forall j | 0 <= j < n
        ensures tops[j] == stacks[j][|stacks[j]| - 1]
      {
        if j < n - 1 {
          assert tops[j] == Tops(init)[j];
          assert init[j] == stacks[j];
        }
      }
    }
  }

  /** `stacks.iter_mut().filter_map(|s| s.pop()).collect()`. */
  method TakeTops(stacks: array<seq<char>>) returns (tops: string)
    modifies stacks
    ensures tops == Tops(old(stacks[..]))
    ensures forall j :: 0 <= j < stacks.Length ==>
      stacks[j] == if old(stacks[j]) == [] then [] else old(stacks[j])[..|old(stacks[j])| - 1]
  {
    ghost var before := stacks[..];
    tops := [];
    for i := 0 to stacks.Length
      invariant tops == Tops(before[..i])
      invariant forall j :: i <= j < stacks.Length ==> stacks[j] == before[j]
      invariant forall j :: 0 <= j < i ==>
        stacks[j] == if before[j] == [] then [] else before[j][..|before[j]| - 1]
    {
      assert before[..i + 1][..i] == before[..i];
      var s := stacks[i];
      if s != [] {
        tops := tops + [s[|s| - 1]];
        stacks[i] := s[..|s| - 1];
      }
    }
    assert before[..stacks.Length] == before;
  }

  /** The move loop of `part_one` and `part_two`; a move the source panics
      on (see `ValidMove`) stops it. */
  method MoveEach(stacks: array<seq<char>>, moves: seq<Move>, keepOrder: bool) returns (failed: Option<nat>)
    modifies stacks
    ensures failed.None? <==> MoveAll(old(stacks[..]), moves, keepOrder, 0).Ok?
    ensures failed.Some? ==> MoveAll(old(stacks[..]), moves, keepOrder, 0) == Err(InvalidMove(failed.value))
    ensures failed.None? ==> stacks[..] == MoveAll(old(stacks[..]), moves, keepOrder, 0).value
  {
    ghost var start := stacks[..];
    for i := 0 to |moves|
      invariant MoveAll(stacks[..], moves, keepOrder, i) == MoveAll(start, moves, keepOrder, 0)
    {
      if !ValidMove(stacks[..], moves[i]) {
        return Some(i);
      }
      ApplyMove(stacks, moves[i], keepOrder);
    }
    return None;
  }

  /** The whole of `part_one` (`keepOrder` false) or `part_two` (true), as a value. */
  function Answer(input: string, keepOrder: bool): Result<string, Error> {
    match ParseDrawing(input)
    case None => Err(ParseFailed)
    case Some(drawing) =>
      var rows := drawing.value;
      if OverflowsFrom(rows, 0) then Err(CrateOutsideStacks)
      else
        var stacks := Drawn(rows);
        match ParseMoves(drawing.rest)
        case None => Err(ParseFailed)
        case Some(moves) =>
          if moves.rest != [] then Err(Unparsed(moves.rest))
          else
            var final :- MoveAll(stacks, moves.value, keepOrder, 0);
            Ok(Tops(final))
  }

  /** `part_one` and `part_two`: parse, build the stacks, apply every move in
      place, then take the top crates. */
  method Rearrange(input: string, keepOrder: bool) returns (r: Result<string, Error>)
    ensures r == Answer(input, keepOrder)
  {
    var drawing := ParseDrawing(input);
    if drawing.None? {
      return Err(ParseFailed);
    }
    var rows := drawing.value.value;
    var built := BuildStacks(rows);
    if built.None? {
      return Err(CrateOutsideStacks);
    }
    assert built.value == Drawn(rows);
    var parsedMoves := ParseMoves(drawing.value.rest);
    if parsedMoves.None? {
      return Err(ParseFailed);
    }
    if parsedMoves.value.rest != [] {
      return Err(Unparsed(parsedMoves.value.rest));
    }
    var moves := parsedMoves.value.value;
    var stacks := new seq<char>[|built.value|](j requires 0 <= j < |built.value| => built.value[j]);
    assert stacks[..] == built.value;
    var failed := MoveEach(stacks, moves, keepOrder);
    if failed.Some? {
      return Err(InvalidMove(failed.value));
    }
    var tops := TakeTops(stacks);
    return Ok(tops);
  }

  /** The part-one answer is the crates that would be on top after moving
      them one at a time. */
  lemma {:induction false} PartOneMovesOneAtATime(stacks: seq<seq<char>>, moves: seq<Move>, i: nat)
    requires forall k :: i <= k < |moves| ==> moves[k].from != moves[k].to
    requires MoveAll(stacks, moves, false, i).Ok?
    ensures MoveAll(stacks, moves, false, i) == OneAtATimeAll(stacks, moves, i)
    decreases |moves| - i
  {
    if i < |moves| {
      MoveIsOneAtATime(stacks, moves[i]);
      PartOneMovesOneAtATime(Moved(stacks, moves[i], false), moves, i + 1);
    }
  }

  /** Every move from index `i` on, each crate moved on its own. */
  function OneAtATimeAll(stacks: seq<seq<char>>, moves: seq<Move>, i: nat): Result<seq<seq<char>>, Error>
    decreases |moves| - i
  {
    if i >= |moves| then Ok(stacks)
    else
      var m := moves[i];
      if !ValidMove(stacks, m) || m.from == m.to then Err(InvalidMove(i))
      else OneAtATimeAll(OneAtATime(stacks, m.from, m.to, m.count), moves, i + 1)
  }

  // ---------------------------------------------------------------------------
  // The puzzle's example

  /** The drawing's rows, top row first. */
  function ExampleRows(): seq<Row> {
    [[None, Some('D'), None], [Some('N'), Some('C'), None], [Some('Z'), Some('M'), Some('P')]]
  }

  function ExampleMoves(): seq<Move> {
    [Move(1, 2, 1), Move(3, 1, 3), Move(2, 2, 1), Move(1, 1, 2)]
  }

  /** The rows build the stacks `ZN`, `MCD` and `P`, bottom first. */
  lemma ExampleStacks()
    ensures !OverflowsFrom(ExampleRows(), 0)
    ensures Drawn(ExampleRows()) == ExampleStart()
  {
    var rows := ExampleRows();
    assert Pile(rows, 0, 0) == ['Z', 'N'];
    assert Pile(rows, 0, 1) == ['M', 'C', 'D'];
    assert Pile(rows, 0, 2) == ['P'];
  }

  /** The first five lines of the example input, joined by line breaks
      (the fifth line is empty). */
  function ExampleDrawing(): string {
    "    [D]    " + "\n" + "[N] [C]    " + "\n" + "[Z] [M] [P]" + "\n" + " 1   2   3" + " \n"
  }

  lemma ThreeSlotRow(a: Option<char>, b: Option<char>, c: Option<char>)
    ensures FormatRow([a, b, c]) == FormatCell(a) + " " + FormatCell(b) + " " + FormatCell(c)
  {
    var texts := CellTexts([a, b, c][1..]);
    assert texts == [FormatCell(b), FormatCell(c)];
    assert texts[1..][1..] == [];
    assert Prefixed(" ", texts[1..]) == " " + FormatCell(c) + [];
    assert Prefixed(" ", texts) == " " + FormatCell(b) + (" " + FormatCell(c));
  }

  lemma ThreeRowDrawing(r0: Row, r1: Row, r2: Row, n: nat, gap: string)
    requires |r0| >= 1 && |r1| >= 1 && |r2| >= 1 && n >= 1
    ensures DrawingText([r0, r1, r2], n, gap)
         == FormatRow(r0) + "\n" + FormatRow(r1) + "\n" + FormatRow(r2) + "\n" + LabelLine(n) + gap
  {
    var texts := RowTexts([r0, r1, r2][1..]);
    assert texts == [FormatRow(r1), FormatRow(r2)];
    assert texts[1..][1..] == [];
    assert Prefixed("\n", texts[1..]) == "\n" + FormatRow(r2) + [];
    assert Prefixed("\n", texts) == "\n" + FormatRow(r1) + ("\n" + FormatRow(r2));
    ThreeLines(FormatRow(r0), FormatRow(r1), FormatRow(r2), LabelLine(n), gap);
  }

  lemma ThreeLines(a: string, b: string, c: string, l: string, g: string)
    ensures a + ("\n" + b + ("\n" + c)) + "\n" + l + g == a + "\n" + b + "\n" + c + "\n" + l + g
  {
  }

  lemma ExampleLabelLine()
    ensures LabelLine(3) == " 1   2   3"
  {
    var texts := LabelTexts(3);
    assert DigitChar(1) == '1' && DigitChar(2) == '2' && DigitChar(3) == '3';
    assert texts[0] == " 1" && texts[1] == "   2" && texts[2] == "   3";
    assert texts[1..][1..][1..] == [];
    assert Concat(texts[1..][1..]) == "   3" + [];
    assert Concat(texts[1..]) == "   2" + "   3";
  }

  lemma ExampleTopRow()
    ensures FormatRow([None, Some('D'), None]) == "    [D]    "
  {
    ThreeSlotRow(None, Some('D'), None);
  }

  lemma ExampleMiddleRow()
    ensures FormatRow([Some('N'), Some('C'), None]) == "[N] [C]    "
  {
    ThreeSlotRow(Some('N'), Some('C'), None);
  }

  lemma ExampleBottomRow()
    ensures FormatRow([Some('Z'), Some('M'), Some('P')]) == "[Z] [M] [P]"
  {
    ThreeSlotRow(Some('Z'), Some('M'), Some('P'));
  }

  lemma ExampleDrawingText()
    ensures DrawingText(ExampleRows(), 3, " \n") == ExampleDrawing()
  {
    ThreeRowDrawing([None, Some('D'), None], [Some('N'), Some('C'), None], [Some('Z'), Some('M'), Some('P')], 3, " \n");
    ExampleTopRow();
    ExampleMiddleRow();
    ExampleBottomRow();
    ExampleLabelLine();
  }

  /** `test_parse_crates`: the example drawing reads back as its rows, with
      nothing left, and those rows build `ZN`, `MCD` and `P`. */
  lemma ExampleParseCrates()
    ensures ParseDrawing(ExampleDrawing()) == Some(Parsed(ExampleRows(), ""))
    ensures !OverflowsFrom(ExampleRows(), 0) && Drawn(ExampleRows()) == ExampleStart()
  {
    var text := DrawingText(ExampleRows(), 3, " \n");
    assert text + "" == text;
    DrawingRoundTrip(ExampleRows(), 3, " \n", "");
    ExampleDrawingText();
    ExampleStacks();
  }

  /** A move between two different stacks, checked stack by stack. */
  lemma MoveStep(stacks: seq<seq<char>>, m: Move, keepOrder: bool, after: seq<seq<char>>)
    requires ValidMove(stacks, m) && m.to <= |stacks| && m.from != m.to && |after| == |stacks|
    requires after[m.from - 1] == Kept(stacks, m)
    requires after[m.to - 1] == stacks[m.to - 1] + Landing(stacks, m, keepOrder)
    requires forall j :: 0 <= j < |stacks| && j != m.from - 1 && j != m.to - 1 ==> after[j] == stacks[j]
    ensures Moved(stacks, m, keepOrder) == after
  {
    MovedBetween(stacks, m, keepOrder);
    assert forall j :: 0 <= j < |stacks| ==> Moved(stacks, m, keepOrder)[j] == after[j];
  }

  function ExampleStart(): seq<seq<char>> {
    [['Z', 'N'], ['M', 'C', 'D'], ['P']]
  }

  /** Each of the example's moves with part one's crane. */
  lemma ExampleOneMoves()
    ensures Moved([['Z', 'N'], ['M', 'C', 'D'], ['P']], Move(1, 2, 1), false)
         == [['Z', 'N', 'D'], ['M', 'C'], ['P']]
    ensures Moved([['Z', 'N', 'D'], ['M', 'C'], ['P']], Move(3, 1, 3), false)
         == [[], ['M', 'C'], ['P', 'D', 'N', 'Z']]
    ensures Moved([[], ['M', 'C'], ['P', 'D', 'N', 'Z']], Move(2, 2, 1), false)
         == [['C', 'M'], [], ['P', 'D', 'N', 'Z']]
    ensures Moved([['C', 'M'], [], ['P', 'D', 'N', 'Z']], Move(1, 1, 2), false)
         == [['C'], ['M'], ['P', 'D', 'N', 'Z']]
  {
    assert Reverse(['D']) == ['D'];
    MoveStep([['Z', 'N'], ['M', 'C', 'D'], ['P']], Move(1, 2, 1), false, [['Z', 'N', 'D'], ['M', 'C'], ['P']]);
    assert Reverse(['Z', 'N', 'D']) == ['D', 'N', 'Z'] by {
      assert Reverse(['N', 'D']) == ['D', 'N'];
    }
    MoveStep([['Z', 'N', 'D'], ['M', 'C'], ['P']], Move(3, 1, 3), false, [[], ['M', 'C'], ['P', 'D', 'N', 'Z']]);
    assert Reverse(['M', 'C']) == ['C', 'M'];
    MoveStep([[], ['M', 'C'], ['P', 'D', 'N', 'Z']], Move(2, 2, 1), false, [['C', 'M'], [], ['P', 'D', 'N', 'Z']]);
    assert Reverse(['M']) == ['M'];
    MoveStep([['C', 'M'], [], ['P', 'D', 'N', 'Z']], Move(1, 1, 2), false, [['C'], ['M'], ['P', 'D', 'N', 'Z']]);
  }

  /** Each of the example's moves with part two's crane. */
  lemma ExampleTwoMoves()
    ensures Moved([['Z', 'N'], ['M', 'C', 'D'], ['P']], Move(1, 2, 1), true)
         == [['Z', 'N', 'D'], ['M', 'C'], ['P']]
    ensures Moved([['Z', 'N', 'D'], ['M', 'C'], ['P']], Move(3, 1, 3), true)
         == [[], ['M', 'C'], ['P', 'Z', 'N', 'D']]
    ensures Moved([[], ['M', 'C'], ['P', 'Z', 'N', 'D']], Move(2, 2, 1), true)
         == [['M', 'C'], [], ['P', 'Z', 'N', 'D']]
    ensures Moved([['M', 'C'], [], ['P', 'Z', 'N', 'D']], Move(1, 1, 2), true)
         == [['M'], ['C'], ['P', 'Z', 'N', 'D']]
  {
    MoveStep([['Z', 'N'], ['M', 'C', 'D'], ['P']], Move(1, 2, 1), true, [['Z', 'N', 'D'], ['M', 'C'], ['P']]);
    MoveStep([['Z', 'N', 'D'], ['M', 'C'], ['P']], Move(3, 1, 3), true, [[], ['M', 'C'], ['P', 'Z', 'N', 'D']]);
    MoveStep([[], ['M', 'C'], ['P', 'Z', 'N', 'D']], Move(2, 2, 1), true, [['M', 'C'], [], ['P', 'Z', 'N', 'D']]);
    MoveStep([['M', 'C'], [], ['P', 'Z', 'N', 'D']], Move(1, 1, 2), true, [['M'], ['C'], ['P', 'Z', 'N', 'D']]);
  }

  /** With part one's crane the example ends with `C`, `M` and `PDNZ` on the
      three stacks, so the answer is `CMZ`. */
  lemma ExamplePartOne()
    ensures MoveAll(ExampleStart(), ExampleMoves(), false, 0) == Ok([['C'], ['M'], ['P', 'D', 'N', 'Z']])
    ensures Tops([['C'], ['M'], ['P', 'D', 'N', 'Z']]) == "CMZ"
  {
    var moves := ExampleMoves();
    ExampleOneMoves();
    var s4 := [['C'], ['M'], ['P', 'D', 'N', 'Z']];
    assert MoveAll([['C', 'M'], [], ['P', 'D', 'N', 'Z']], moves, false, 3) == Ok(s4);
    assert MoveAll([[], ['M', 'C'], ['P', 'D', 'N', 'Z']], moves, false, 2) == Ok(s4);
    assert MoveAll([['Z', 'N', 'D'], ['M', 'C'], ['P']], moves, false, 1) == Ok(s4);
  }

  /** With part two's crane the example ends with `M`, `C` and `PZND` on the
      three stacks, so the answer is `MCD`. */
  lemma ExamplePartTwo()
    ensures MoveAll(ExampleStart(), ExampleMoves(), true, 0) == Ok([['M'], ['C'], ['P', 'Z', 'N', 'D']])
    ensures Tops([['M'], ['C'], ['P', 'Z', 'N', 'D']]) == "MCD"
  {
    var moves := ExampleMoves();
    ExampleTwoMoves();
    var s4 := [['M'], ['C'], ['P', 'Z', 'N', 'D']];
    assert MoveAll([['M', 'C'], [], ['P', 'Z', 'N', 'D']], moves, true, 3) == Ok(s4);
    assert MoveAll([[], ['M', 'C'], ['P', 'Z', 'N', 'D']], moves, true, 2) == Ok(s4);
    assert MoveAll([['Z', 'N', 'D'], ['M', 'C'], ['P']], moves, true, 1) == Ok(s4);
  }
}
