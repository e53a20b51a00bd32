/** Text primitives shared by the puzzle solvers: the few `nom` combinators
    they use (character runs, tags, 32-bit integers, separated lists) and the
    Rust string helpers (`str::parse::<u32>`, `split`, `lines`, `split_once`).
    A parser returns the value it read and the input it did not consume, or
    `None` where `nom` reports a recoverable error. */
module Parsing {
  import opened Wrappers

  datatype Parsed<+T> = Parsed(value: T, rest: string)

  type Parser<T> = string -> Option<Parsed<T>>

  /** A separator: consumes some text and yields nothing. */
  type Skipper = string -> Option<string>

  const U32_MAX: nat := 0xFFFF_FFFF
  const I32_MIN: int := -0x8000_0000
  const I32_MAX: int := 0x7FFF_FFFF

  predicate IsDigit(c: char) { '0' <= c <= '9' }
  predicate IsAlpha(c: char) { 'a' <= c <= 'z' || 'A' <= c <= 'Z' }
  predicate IsSpace(c: char) { c == ' ' || c == '\t' }
  predicate IsMultispace(c: char) { c == ' ' || c == '\t' || c == '\r' || c == '\n' }
  predicate IsNotNewline(c: char) { c != '\n' }

  predicate AllDigits(s: string) { forall i :: 0 <= i < |s| ==> IsDigit(s[i]) }

  /** True when `s` is empty or does not start with a digit: what a number
      must be followed by for the digit run to end where the number ends. */
  predicate NoDigitAhead(s: string) { s == [] || !IsDigit(s[0]) }

  function DigitValue(c: char): nat
    requires IsDigit(c)
  {
    c as int - '0' as int
  }

  function DigitChar(d: nat): (c: char)
    requires d < 10
    ensures IsDigit(c) && DigitValue(c) == d
  {
    ('0' as int + d) as char
  }

  // ---------------------------------------------------------------------------
  // Character runs and tags

  /** The length of the longest prefix of `s` whose characters satisfy `p`. */
  function SpanLength(p: char -> bool, s: string): (k: nat)
    ensures k <= |s|
    ensures forall i :: 0 <= i < k ==> p(s[i])
    ensures k < |s| ==> !p(s[k])
  {
    if s == [] || !p(s[0]) then 0 else 1 + SpanLength(p, s[1..])
  }

  lemma SpanOfConcat(p: char -> bool, a: string, b: string)
    requires forall i :: 0 <= i < |a| ==> p(a[i])
    requires b == [] || !p(b[0])
    ensures SpanLength(p, a + b) == |a|
  {
    if b != [] {
      assert (a + b)[|a|] == b[0];
    }
  }

  /** `take_while1`: one or more characters satisfying `p`
      (`alpha1`, `space1`, `digit1`, `take_till1(is_newline)`). */
  function TakeWhile1(p: char -> bool, s: string): (r: Option<Parsed<string>>)
    ensures r.Some? <==> s != [] && p(s[0])
    ensures r.Some? ==> r.value.value + r.value.rest == s && |r.value.rest| < |s|
    ensures r.Some? ==> forall i :: 0 <= i < |r.value.value| ==> p(r.value.value[i])
    ensures r.Some? ==> r.value.rest == [] || !p(r.value.rest[0])
  {
    var k := SpanLength(p, s);
    if k == 0 then None else Some(Parsed(s[..k], s[k..]))
  }

  lemma TakeWhile1OfConcat(p: char -> bool, a: string, b: string)
    requires a != [] && forall i :: 0 <= i < |a| ==> p(a[i])
    requires b == [] || !p(b[0])
    ensures TakeWhile1(p, a + b) == Some(Parsed(a, b))
  {
    SpanOfConcat(p, a, b);
    assert (a + b)[..|a|] == a && (a + b)[|a|..] == b;
  }

  /** `tag(t)`: the literal text `t`. */
  function Tag(t: string, s: string): (r: Option<string>)
    ensures r.Some? <==> t <= s
    ensures r.Some? ==> s == t + r.value
  {
    if t <= s then Some(s[|t|..]) else None
  }

  lemma TagOfConcat(t: string, rest: string)
    ensures Tag(t, t + rest) == Some(rest)
  {
    assert t <= t + rest;
    assert (t + rest)[|t|..] == rest;
  }

  function Newline(s: string): (r: Option<string>)
    ensures r.Some? <==> |s| > 0 && s[0] == '\n'
    ensures r.Some? ==> r.value == s[1..]
  {
    Tag("\n", s)
  }

  // ---------------------------------------------------------------------------
  // Numbers

  /** The value of a string of decimal digits, most significant first. */
  function ValueOf(ds: string): nat
    requires AllDigits(ds)
  {
    if ds == [] then 0 else 10 * ValueOf(ds[..|ds| - 1]) + DigitValue(ds[|ds| - 1])
  }

  /** The decimal text of `n`, without leading zeros. */
  function NatToString(n: nat): (s: string)
    ensures s != [] && AllDigits(s)
    ensures ValueOf(s) == n
    ensures |s| > 1 ==> s[0] != '0'
  {
    if n < 10 then [DigitChar(n)]
    else
      var prefix := NatToString(n / 10);
      var s := prefix + [DigitChar(n % 10)];
      assert s[..|s| - 1] == prefix;
      s
  }

  /** The decimal text of `x`, with a leading `-` when negative. */
  function IntToString(x: int): string {
    if x < 0 then "-" + NatToString(-x) else NatToString(x)
  }

  /** `nom::character::complete::u32`: the longest run of ASCII digits (at
      least one); an error when its value does not fit in 32 bits (the digit
      run's partial values never decrease, so overflow at some digit is the
      same as a final value above the maximum). */
  function U32(s: string): (r: Option<Parsed<nat>>)
    ensures r.Some? ==> r.value.value <= U32_MAX && |r.value.rest| < |s|
    ensures r.Some? ==> NoDigitAhead(r.value.rest)
  {
    var k := SpanLength(IsDigit, s);
    if k == 0 then None
    else
      var v := ValueOf(s[..k]);
      if v > U32_MAX then None else Some(Parsed(v, s[k..]))
  }

  /** `nom::character::complete::i32`: an optional `+` or `-`, then the
      longest run of digits (at least one); an error when the signed value is
      outside the 32-bit range. */
  function I32(s: string): (r: Option<Parsed<int>>)
    ensures r.Some? ==> I32_MIN <= r.value.value <= I32_MAX && |r.value.rest| < |s|
    ensures r.Some? ==> NoDigitAhead(r.value.rest)
  {
    var negative := s != [] && s[0] == '-';
    var body := if s != [] && (s[0] == '-' || s[0] == '+') then s[1..] else s;
    var k := SpanLength(IsDigit, body);
    if k == 0 then None
    else
      var magnitude: int := ValueOf(body[..k]);
      var v := if negative then -magnitude else magnitude;
      if v < I32_MIN || v > I32_MAX then None else Some(Parsed(v, body[k..]))
  }

  lemma {:induction false} U32RoundTrip(n: nat, rest: string)
    requires n <= U32_MAX && NoDigitAhead(rest)
    ensures U32(NatToString(n) + rest) == Some(Parsed(n, rest))
  {
    var t := NatToString(n);
    SpanOfConcat(IsDigit, t, rest);
    assert (t + rest)[..|t|] == t && (t + rest)[|t|..] == rest;
  }

  lemma {:induction false} I32RoundTrip(x: int, rest: string)
    requires I32_MIN <= x <= I32_MAX && NoDigitAhead(rest)
    ensures I32(IntToString(x) + rest) == Some(Parsed(x, rest))
  {
    var t := NatToString(if x < 0 then -x else x);
    if x < 0 {
      assert IntToString(x) + rest == ['-'] + (t + rest);
      I32OfSignedDigits(x, t, rest);
    } else {
      assert IntToString(x) + rest == t + rest;
      I32OfDigits(x, t, rest);
    }
  }

  lemma I32OfDigits(x: nat, t: string, rest: string)
    requires x <= I32_MAX && t == NatToString(x) && NoDigitAhead(rest)
    ensures I32(t + rest) == Some(Parsed(x, rest))
  {
    DigitsThenRest(t, rest);
    assert (t + rest)[0] == t[0] && IsDigit(t[0]);
  }

  lemma I32OfSignedDigits(x: int, t: string, rest: string)
    requires I32_MIN <= x < 0 && t == NatToString(-x) && NoDigitAhead(rest)
    ensures I32(['-'] + (t + rest)) == Some(Parsed(x, rest))
  {
    DigitsThenRest(t, rest);
    assert (['-'] + (t + rest))[1..] == t + rest;
  }

  lemma DigitsThenRest(t: string, rest: string)
    requires AllDigits(t) && NoDigitAhead(rest)
    ensures SpanLength(IsDigit, t + rest) == |t|
    ensures (t + rest)[..|t|] == t && (t + rest)[|t|..] == rest
  {
    SpanOfConcat(IsDigit, t, rest);
  }

  // ---------------------------------------------------------------------------
  // Repetition: nom's `separated_list0`, `separated_list1` and `many1`

  ghost predicate NeverGrows<T>(p: Parser<T>) {
    forall s :: p(s).Some? ==> |p(s).value.rest| <= |s|
  }

  ghost predicate AlwaysConsumes<T>(p: Parser<T>) {
    forall s :: p(s).Some? ==> |p(s).value.rest| < |s|
  }

  ghost predicate SkipperConsumes(sep: Skipper) {
    forall s :: sep(s).Some? ==> |sep(s).value| < |s|
  }

  /** The part of `separated_list0` after the first element: repeatedly a
      separator and an element; when either fails, the input from before that
      separator is what is left. */
  function SeparatedTail<T>(p: Parser<T>, sep: Skipper, s: string): (r: Parsed<seq<T>>)
    requires NeverGrows(p) && SkipperConsumes(sep)
    ensures |r.rest| <= |s|
    decreases |s|
  {
    match sep(s)
    case None => Parsed([], s)
    case Some(afterSep) =>
      match p(afterSep)
      case None => Parsed([], s)
      case Some(item) =>
        var tail := SeparatedTail(p, sep, item.rest);
        Parsed([item.value] + tail.value, tail.rest)
  }

  /** `separated_list0(sep, p)`: never fails; no element gives an empty list
      and leaves the input untouched. */
  function SeparatedList0<T>(p: Parser<T>, sep: Skipper, s: string): (r: Parsed<seq<T>>)
    requires NeverGrows(p) && SkipperConsumes(sep)
    ensures |r.rest| <= |s|
    ensures r.value == [] <==> p(s).None?
  {
    match p(s)
    case None => Parsed([], s)
    case Some(first) =>
      var tail := SeparatedTail(p, sep, first.rest);
      Parsed([first.value] + tail.value, tail.rest)
  }

  /** `separated_list1(sep, p)`: as `separated_list0`, but at least one element. */
  function SeparatedList1<T>(p: Parser<T>, sep: Skipper, s: string): (r: Option<Parsed<seq<T>>>)
    requires NeverGrows(p) && SkipperConsumes(sep)
    ensures r.Some? <==> p(s).Some?
    ensures r.Some? ==> |r.value.value| >= 1 && |r.value.rest| <= |s|
  {
    if p(s).None? then None else Some(SeparatedList0(p, sep, s))
  }

  /** One more separator and element at the front of a tail. */
  lemma SeparatedTailStep<T>(p: Parser<T>, sep: Skipper, s: string, afterSep: string,
                             item: T, rest: string, items: seq<T>, left: string)
    requires NeverGrows(p) && SkipperConsumes(sep)
    requires sep(s) == Some(afterSep) && p(afterSep) == Some(Parsed(item, rest))
    requires SeparatedTail(p, sep, rest) == Parsed(items, left)
    ensures SeparatedTail(p, sep, s) == Parsed([item] + items, left)
  {
  }

  /** The first element, then a tail. */
  lemma SeparatedList0Step<T>(p: Parser<T>, sep: Skipper, s: string,
                              item: T, rest: string, items: seq<T>, left: string)
    requires NeverGrows(p) && SkipperConsumes(sep)
    requires p(s) == Some(Parsed(item, rest))
    requires SeparatedTail(p, sep, rest) == Parsed(items, left)
    ensures SeparatedList0(p, sep, s) == Parsed([item] + items, left)
  {
  }

  /** Each of `texts`, preceded by the separator text `d`. */
  function Prefixed(d: string, texts: seq<string>): string {
    if texts == [] then [] else d + texts[0] + Prefixed(d, texts[1..])
  }

  /** Each of `texts`, followed by anything `follows` allows, reads as the
      matching item and leaves what followed it. */
  ghost predicate ReadsEach<T>(p: Parser<T>, texts: seq<string>, items: seq<T>, follows: string -> bool) {
    && |texts| == |items|
    && forall i, x {:trigger p(texts[i] + x)} :: 0 <= i < |texts| && follows(x) ==> p(texts[i] + x) == Some(Parsed(items[i], x))
  }

  lemma ReadsEachTail<T>(p: Parser<T>, texts: seq<string>, items: seq<T>, follows: string -> bool)
    requires texts != [] && ReadsEach(p, texts, items, follows)
    ensures ReadsEach(p, texts[1..], items[1..], follows)
  {
    forall i, x | 0 <= i < |texts[1..]| && follows(x)
      ensures p(texts[1..][i] + x) == Some(Parsed(items[1..][i], x))
    {
      assert texts[1..][i] == texts[i + 1] && items[1..][i] == items[i + 1];
    }
  }

  lemma PrefixedCons(d: string, texts: seq<string>, more: string)
    requires texts != []
    ensures Prefixed(d, texts) + more == d + (texts[0] + (Prefixed(d, texts[1..]) + more))
  {
  }

  /** The tail of `separated_list0` is empty where no separator and element start. */
  lemma SeparatedTailStops<T>(p: Parser<T>, sep: Skipper, more: string)
    requires NeverGrows(p) && SkipperConsumes(sep)
    requires sep(more).None? || p(sep(more).value).None?
    ensures SeparatedTail(p, sep, more) == Parsed([], more)
  {
  }

  /** The tail of `separated_list0` over texts each preceded by a separator
      `d` gives back their items, and stops before `more` when no separator
      and element start there. */
  lemma {:induction false} SeparatedTailOfPrefixed<T>(p: Parser<T>, sep: Skipper, d: string,
                                                      texts: seq<string>, items: seq<T>,
                                                      follows: string -> bool, more: string)
    requires NeverGrows(p) && SkipperConsumes(sep)
    requires ReadsEach(p, texts, items, follows)
    requires forall x {:trigger sep(d + x)} :: sep(d + x) == Some(x)
    requires forall x {:trigger follows(d + x)} :: follows(d + x)
    requires follows(more) && (sep(more).None? || p(sep(more).value).None?)
    ensures SeparatedTail(p, sep, Prefixed(d, texts) + more) == Parsed(items, more)
    decreases |texts|
  {
    if texts == [] {
      assert Prefixed(d, texts) + more == more;
      SeparatedTailStops(p, sep, more);
    } else {
      var rest := texts[1..];
      var tail := Prefixed(d, rest) + more;
      var x := texts[0] + tail;
      PrefixedCons(d, texts, more);
      assert sep(d + x) == Some(x);
      assert follows(tail) by {
        if rest != [] {
          PrefixedCons(d, rest, more);
          assert follows(d + (rest[0] + (Prefixed(d, rest[1..]) + more)));
        } else {
          assert Prefixed(d, rest) == [];
          assert tail == more;
        }
      }
      assert p(texts[0] + tail) == Some(Parsed(items[0], tail));
      ReadsEachTail(p, texts, items, follows);
      SeparatedTailOfPrefixed(p, sep, d, rest, items[1..], follows, more);
      SeparatedTailStep(p, sep, d + x, x, items[0], tail, items[1..], more);
      assert [items[0]] + items[1..] == items;
    }
  }

  /** What may follow a line: the end of the input or a line break. */
  predicate LineEnd(more: string) { more == [] || more[0] == '\n' }

  /** Each of `lines`, followed by a line end, reads as the matching item
      and leaves the line end. */
  ghost predicate ReadsLines<T>(p: Parser<T>, lines: seq<string>, items: seq<T>) {
    && |lines| == |items|
    && forall i, more :: 0 <= i < |lines| && LineEnd(more) ==> p(lines[i] + more) == Some(Parsed(items[i], more))
  }

  lemma ReadLine<T>(p: Parser<T>, lines: seq<string>, items: seq<T>, i: nat, more: string)
    requires ReadsLines(p, lines, items) && i < |lines| && LineEnd(more)
    ensures p(lines[i] + more) == Some(Parsed(items[i], more))
  {
  }

  lemma ReadsLinesTail<T>(p: Parser<T>, lines: seq<string>, items: seq<T>)
    requires lines != [] && ReadsLines(p, lines, items)
    ensures ReadsLines(p, lines[1..], items[1..])
  {
    forall i, more | 0 <= i < |lines[1..]| && LineEnd(more)
      ensures p(lines[1..][i] + more) == Some(Parsed(items[1..][i], more))
    {
      assert lines[1..][i] == lines[i + 1] && items[1..][i] == items[i + 1];
    }
  }

  /** The tail after the last line: nothing more, or a final line break that
      no element follows. */
  lemma SeparatedTailEnd<T>(p: Parser<T>, trailing: string)
    requires NeverGrows(p) && SkipperConsumes(Newline)
    requires trailing == "" || (trailing == "\n" && p("").None?)
    ensures SeparatedTail(p, Newline, trailing) == Parsed([], trailing)
  {
    if trailing == "\n" {
      assert Newline(trailing) == Some("");
    }
  }

  lemma {:induction false} SeparatedTailOfLines<T>(p: Parser<T>, lines: seq<string>, items: seq<T>, trailing: string)
    requires NeverGrows(p) && SkipperConsumes(Newline)
    requires lines != [] && ReadsLines(p, lines, items)
    requires trailing == "" || (trailing == "\n" && p("").None?)
    ensures SeparatedTail(p, Newline, "\n" + (Join(lines, '\n') + trailing)) == Parsed(items, trailing)
    decreases |lines|
  {
    var body := Join(lines, '\n') + trailing;
    TagOfConcat("\n", body);
    if |lines| == 1 {
      ReadLine(p, lines, items, 0, trailing);
      SeparatedTailEnd(p, trailing);
      SeparatedTailStep(p, Newline, "\n" + body, body, items[0], trailing, [], trailing);
      assert [items[0]] + [] == items;
    } else {
      var more := "\n" + (Join(lines[1..], '\n') + trailing);
      assert body == lines[0] + more;
      assert more[0] == '\n';
      ReadLine(p, lines, items, 0, more);
      ReadsLinesTail(p, lines, items);
      SeparatedTailOfLines(p, lines[1..], items[1..], trailing);
      SeparatedTailStep(p, Newline, "\n" + body, body, items[0], more, items[1..], trailing);
      assert [items[0]] + items[1..] == items;
    }
  }

  /** `separated_list0(newline, p)` over lines that each read as one item
      gives back the items, leaving only a final line break, if any. */
  lemma SeparatedListOfLines<T>(p: Parser<T>, lines: seq<string>, items: seq<T>, trailing: string)
    requires NeverGrows(p) && SkipperConsumes(Newline)
    requires lines != [] && ReadsLines(p, lines, items)
    requires trailing == "" || (trailing == "\n" && p("").None?)
    ensures SeparatedList0(p, Newline, Join(lines, '\n') + trailing) == Parsed(items, trailing)
  {
    if |lines| == 1 {
      ReadLine(p, lines, items, 0, trailing);
      SeparatedTailEnd(p, trailing);
      SeparatedList0Step(p, Newline, lines[0] + trailing, items[0], trailing, [], trailing);
      assert [items[0]] + [] == items;
    } else {
      var more := "\n" + (Join(lines[1..], '\n') + trailing);
      assert Join(lines, '\n') + trailing == lines[0] + more;
      assert more[0] == '\n';
      ReadLine(p, lines, items, 0, more);
      ReadsLinesTail(p, lines, items);
      SeparatedTailOfLines(p, lines[1..], items[1..], trailing);
      SeparatedList0Step(p, Newline, lines[0] + more, items[0], more, items[1..], trailing);
      assert [items[0]] + items[1..] == items;
    }
  }

  /** The part of `many1` after the first element (zero or more further elements). */
  function ManyTail<T>(p: Parser<T>, s: string): (r: Parsed<seq<T>>)
    requires AlwaysConsumes(p)
    ensures |r.rest| <= |s|
    decreases |s|
  {
    match p(s)
    case None => Parsed([], s)
    case Some(item) =>
      var tail := ManyTail(p, item.rest);
      Parsed([item.value] + tail.value, tail.rest)
  }

  /** The texts one after the other. */
  function Concat(texts: seq<string>): string {
    if texts == [] then [] else texts[0] + Concat(texts[1..])
  }

  lemma ConcatCons(texts: seq<string>, more: string)
    requires texts != []
    ensures Concat(texts) + more == texts[0] + (Concat(texts[1..]) + more)
  {
  }

  /** The tail of `many1` over texts written one after the other gives back
      their items, and stops before `more` when no element starts there. */
  lemma {:induction false} ManyTailOfConcat<T>(p: Parser<T>, texts: seq<string>, items: seq<T>,
                                              follows: string -> bool, more: string)
    requires AlwaysConsumes(p)
    requires ReadsEach(p, texts, items, follows)
    requires forall i, x {:trigger follows(texts[i] + x)} :: 0 <= i < |texts| ==> follows(texts[i] + x)
    requires follows(more) && p(more).None?
    ensures ManyTail(p, Concat(texts) + more) == Parsed(items, more)
    decreases |texts|
  {
    if texts == [] {
      assert Concat(texts) + more == more;
    } else {
      var rest := texts[1..];
      var tail := Concat(rest) + more;
      ConcatCons(texts, more);
      assert follows(tail) by {
        if rest != [] {
          ConcatCons(rest, more);
          assert follows(texts[1] + (Concat(rest[1..]) + more));
        } else {
          assert tail == more;
        }
      }
      assert p(texts[0] + tail) == Some(Parsed(items[0], tail));
      ReadsEachTail(p, texts, items, follows);
      assert forall i, x {:trigger follows(rest[i] + x)} :: 0 <= i < |rest| ==> follows(rest[i] + x) by {
        forall i, x | 0 <= i < |rest| ensures follows(rest[i] + x) {
          assert rest[i] == texts[i + 1];
        }
      }
      ManyTailOfConcat(p, rest, items[1..], follows, more);
      assert [items[0]] + items[1..] == items;
    }
  }

  /** `many1(p)` for an element parser that always consumes input, so that
      nom's guard against a parser that consumes nothing never fires. */
  function Many1<T>(p: Parser<T>, s: string): (r: Option<Parsed<seq<T>>>)
    requires AlwaysConsumes(p)
    ensures r.Some? <==> p(s).Some?
    ensures r.Some? ==> |r.value.value| >= 1 && |r.value.rest| < |s|
  {
    if p(s).None? then None else Some(ManyTail(p, s))
  }

  // ---------------------------------------------------------------------------
  // Rust string helpers

  /** The position of the first `c` in `s`. */
  function IndexOf(s: string, c: char): (r: Option<nat>)
    ensures r.None? <==> c !in s
    ensures r.Some? ==> r.value < |s| && s[r.value] == c && c !in s[..r.value]
  {
    if s == [] then None
    else if s[0] == c then Some(0)
    else
      match IndexOf(s[1..], c)
      case None => None
      case Some(i) =>
        assert s[..i + 1] == [s[0]] + s[1..][..i];
        Some(i + 1)
  }

  /** `str::split(c)`: the pieces between occurrences of `c`; always at least one. */
  function Split(s: string, c: char): (parts: seq<string>)
    ensures |parts| >= 1
    ensures forall i :: 0 <= i < |parts| ==> c !in parts[i]
    decreases |s|
  {
    match IndexOf(s, c)
    case None => [s]
    case Some(i) => [s[..i]] + Split(s[i + 1..], c)
  }

  /** The pieces glued back together with `c` between them. */
  function Join(parts: seq<string>, c: char): string
    requires |parts| >= 1
  {
    if |parts| == 1 then parts[0] else parts[0] + [c] + Join(parts[1..], c)
  }

  lemma {:induction false} JoinSplit(s: string, c: char)
    ensures Join(Split(s, c), c) == s
    decreases |s|
  {
    match IndexOf(s, c)
    case None =>
    case Some(i) =>
      JoinSplit(s[i + 1..], c);
      assert Split(s, c)[1..] == Split(s[i + 1..], c);
      assert s == s[..i] + [c] + s[i + 1..];
  }

  lemma {:induction false} SplitJoin(parts: seq<string>, c: char)
    requires |parts| >= 1
    requires forall i :: 0 <= i < |parts| ==> c !in parts[i]
    ensures Split(Join(parts, c), c) == parts
    decreases |parts|
  {
    if |parts| > 1 {
      var s := Join(parts, c);
      var tail := Join(parts[1..], c);
      assert s == parts[0] + ([c] + tail);
      IndexOfAfterClean(parts[0], c, tail);
      assert s[..|parts[0]|] == parts[0];
      assert s[|parts[0]| + 1..] == tail;
      SplitJoin(parts[1..], c);
    } else {
      assert IndexOf(parts[0], c).None?;
    }
  }

  lemma IndexOfAfterClean(a: string, c: char, b: string)
    requires c !in a
    ensures IndexOf(a + ([c] + b), c) == Some(|a|)
  {
    var s := a + ([c] + b);
    assert s[|a|] == c;
    assert s[..|a|] == a;
  }

  /** `str::split_once(c)`: the text before and after the first `c`. */
  function SplitOnce(s: string, c: char): (r: Option<(string, string)>)
    ensures r.None? <==> c !in s
    ensures r.Some? ==> s == r.value.0 + [c] + r.value.1 && c !in r.value.0
  {
    match IndexOf(s, c)
    case None => None
    case Some(i) =>
      assert s == s[..i] + [c] + s[i + 1..];
      Some((s[..i], s[i + 1..]))
  }

  function StripCarriageReturn(line: string): string {
    if line != [] && line[|line| - 1] == '\r' then line[..|line| - 1] else line
  }

  /** `str::lines()`: the text split at each `\n`; a `\r` just before a `\n`
      is dropped, and a final empty piece (text ending in `\n`, or empty
      text) is not a line. */
  function Lines(s: string): (ls: seq<string>)
    ensures forall i :: 0 <= i < |ls| ==> '\n' !in ls[i]
    decreases |s|
  {
    if s == [] then []
    else
      match IndexOf(s, '\n')
      case None => [s]
      case Some(i) => [StripCarriageReturn(s[..i])] + Lines(s[i + 1..])
  }

  /** Without carriage returns, `lines()` is `split('\n')` minus a final
      empty piece. */
  lemma {:induction false} LinesAsSplit(s: string)
    requires '\r' !in s
    ensures Lines(s) == if s == [] then [] else DropFinalEmpty(Split(s, '\n'))
    decreases |s|
  {
    if s != [] {
      match IndexOf(s, '\n')
      case None =>
      case Some(i) =>
        var head := s[..i];
        var rest := s[i + 1..];
        NotInSlice(s, '\r', 0, i);
        NotInSlice(s, '\r', i + 1, |s|);
        assert StripCarriageReturn(head) == head;
        LinesAsSplit(rest);
        var parts := Split(rest, '\n');
        assert Split(s, '\n') == [head] + parts;
        if rest == [] {
          assert parts == [[]];
        }
    }
  }

  /** Text made of the given lines, each closed by a line break. */
  function Unlines(lines: seq<string>): string {
    if lines == [] then "" else lines[0] + "\n" + Unlines(lines[1..])
  }

  /** A line that `lines()` gives back unchanged: no line break inside and no
      carriage return at its end. */
  predicate PlainLine(line: string) {
    '\n' !in line && (line == [] || line[|line| - 1] != '\r')
  }

  /** `lines()` undoes `Unlines`. */
  lemma {:induction false} LinesUnlines(lines: seq<string>)
    requires forall i :: 0 <= i < |lines| ==> PlainLine(lines[i])
    ensures Lines(Unlines(lines)) == lines
    decreases |lines|
  {
    if lines != [] {
      var rest := Unlines(lines[1..]);
      assert Unlines(lines) == lines[0] + ("\n" + rest);
      IndexOfAfterClean(lines[0], '\n', rest);
      var s := Unlines(lines);
      assert s[..|lines[0]|] == lines[0];
      assert s[|lines[0]| + 1..] == rest;
      LinesUnlines(lines[1..]);
    }
  }

  lemma NotInSlice(s: string, c: char, i: nat, j: nat)
    requires i <= j <= |s| && c !in s
    ensures c !in s[i..j]
  {
  }

  function DropFinalEmpty(parts: seq<string>): seq<string>
    requires |parts| >= 1
  {
    if |parts| == 1 then (if parts[0] == [] then [] else parts)
    else [parts[0]] + DropFinalEmpty(parts[1..])
  }

  /** `str::parse::<u32>()`: an optional `+`, then only digits (at least
      one), with a value that fits in 32 bits. */
  function ParseU32Str(s: string): (r: Option<nat>)
    ensures r.Some? ==> r.value <= U32_MAX
    ensures r.Some? ==> s != [] && (IsDigit(s[0]) || s[0] == '+')
  {
    var digits := if |s| > 1 && s[0] == '+' then s[1..] else s;
    if digits == [] || !AllDigits(digits) then None
    else
      var v := ValueOf(digits);
      if v > U32_MAX then None else Some(v)
  }

  lemma ParseU32StrRoundTrip(n: nat)
    requires n <= U32_MAX
    ensures ParseU32Str(NatToString(n)) == Some(n)
  {
  }
}
