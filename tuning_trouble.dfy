// Day 6, "Tuning Trouble": find the first position in the datastream after
// which the last 4 (start-of-packet) or 14 (start-of-message) characters are
// all different.

module TuningTrouble {
  import opened Wrappers

  /** No character occurs twice in `w`. */
  predicate Distinct(w: seq<char>) {
    forall j, k :: 0 <= j < k < |w| ==> w[j] != w[k]
  }

  /** The characters of `w`, as the `HashSet` collects them. */
  function Chars(w: seq<char>): set<char> {
    set c | c in w
  }

  /** The set of a window has as many elements as the window has characters
      exactly when the window holds no repeated character; this is the test
      `hash.len() == N`. */
  lemma {:induction false} CountedIffDistinct(w: seq<char>)
    ensures |Chars(w)| <= |w|
    ensures |Chars(w)| == |w| <==> Distinct(w)
    decreases |w|
  {
    if w != [] {
      var tail := w[1..];
      CountedIffDistinct(tail);
      assert Chars(w) == {w[0]} + Chars(tail);
      if w[0] in tail {
        assert Chars(w) == Chars(tail);
        var k :| 0 <= k < |tail| && tail[k] == w[0];
        assert w[k + 1] == w[0];
      } else {
        assert |Chars(w)| == |Chars(tail)| + 1;
        if Distinct(tail) {
          forall j, k | 0 <= j < k < |w|
            ensures w[j] != w[k]
          {
            if j == 0 {
              assert w[k] == tail[k - 1];
            } else {
              assert w[j] == tail[j - 1] && w[k] == tail[k - 1];
            }
          }
        }
        if Distinct(w) {
          forall j, k | 0 <= j < k < |tail|
            ensures tail[j] != tail[k]
          {
            assert tail[j] == w[j + 1] && tail[k] == w[k + 1];
          }
        }
      }
    }
  }

  // ---------------------------------------------------------------------------
  // What the scans compute

  /** The `size` characters from position `j` are all different. */
  predicate DistinctWindow(s: seq<char>, size: nat, j: nat)
    requires j + size <= |s|
  {
    Distinct(s[j..j + size])
  }

  /** The set of the four characters from `i` has four elements exactly when
      they are all different. */
  lemma FourCounted(s: seq<char>, i: nat)
    requires i + 4 <= |s|
    ensures |{s[i], s[i + 1], s[i + 2], s[i + 3]}| == 4 <==> DistinctWindow(s, 4, i)
  {
    var w := s[i..i + 4];
    assert forall c :: c in w <==> c == w[0] || c == w[1] || c == w[2] || c == w[3];
    assert Chars(w) == {s[i], s[i + 1], s[i + 2], s[i + 3]};
    CountedIffDistinct(w);
  }

  /** Scanning window starts `i`, `i + 1`, ..., `count - 1`: the end of the
      first window of `size` distinct characters, if any. */
  function FirstFrom(s: seq<char>, size: nat, i: nat, count: nat): (r: Option<nat>)
    requires i <= count && count + size <= |s| + 1
    ensures r.Some? ==> i + size <= r.value < count + size
    decreases count - i
  {
    if i == count then None
    else if DistinctWindow(s, size, i) then Some(i + size)
    else FirstFrom(s, size, i + 1, count)
  }

  /** What the scan finds: a marker ends the first window of different
      characters among those scanned, and no marker means there is none. */
  lemma {:induction false} FirstFromFinds(s: seq<char>, size: nat, i: nat, count: nat)
    requires i <= count && count + size <= |s| + 1
    ensures FirstFrom(s, size, i, count).Some? ==> DistinctWindow(s, size, FirstFrom(s, size, i, count).value - size)
    ensures FirstFrom(s, size, i, count).Some? ==>
              forall j :: i <= j < FirstFrom(s, size, i, count).value - size ==> !DistinctWindow(s, size, j)
    ensures FirstFrom(s, size, i, count).None? ==> forall j :: i <= j < count ==> !DistinctWindow(s, size, j)
    decreases count - i
  {
    if i < count && !DistinctWindow(s, size, i) {
      FirstFromFinds(s, size, i + 1, count);
    }
  }

  /** The marker the scan of the first `count` window starts reports. */
  function FirstMarker(s: seq<char>, size: nat, count: nat): (r: Option<nat>)
    requires count + size <= |s| + 1
  {
    FirstFrom(s, size, 0, count)
  }

  /** Scanning more window starts changes nothing once a marker is found, and
      finds no marker the shorter scan missed among its own windows. */
  lemma {:induction false} LongerScan(s: seq<char>, size: nat, i: nat, count: nat, more: nat)
    requires i <= count <= more && more + size <= |s| + 1
    ensures FirstFrom(s, size, i, count).Some? ==> FirstFrom(s, size, i, more) == FirstFrom(s, size, i, count)
    ensures FirstFrom(s, size, i, count).None? ==> FirstFrom(s, size, i, more) == FirstFrom(s, size, count, more)
    decreases count - i
  {
    if i < count && !DistinctWindow(s, size, i) {
      LongerScan(s, size, i + 1, count, more);
    }
  }

  // ---------------------------------------------------------------------------
  // The two parts

  /** `part_one`: window starts `0..len - 3`, each window of four characters
      put into a fresh set; the first set of four elements gives its end.
      The `usize` subtraction panics below three characters. */
  method PartOne(input: seq<char>) returns (r: Option<nat>)
    requires |input| >= 3
    ensures r == FirstMarker(input, 4, |input| - 3)
  {
    for i := 0 to |input| - 3
      invariant FirstMarker(input, 4, |input| - 3) == FirstFrom(input, 4, i, |input| - 3)
    {
      var a, b, c, d := input[i], input[i + 1], input[i + 2], input[i + 3];
      var hash: set<char> := {};
      hash := hash + {a};
      hash := hash + {b};
      hash := hash + {c};
      hash := hash + {d};
      FourCounted(input, i);
      if |hash| == 4 {
        return Some(i + 4);
      }
    }
    return None;
  }

  /** The loop shared by both forms of `part_two`: for each window start
      below `count`, the `size` characters from there put into a fresh set,
      one at a time. */
  method ScanWindows(input: seq<char>, size: nat, count: nat) returns (r: Option<nat>)
    requires count + size <= |input| + 1
    ensures r == FirstMarker(input, size, count)
  {
    for i := 0 to count
      invariant FirstMarker(input, size, count) == FirstFrom(input, size, i, count)
    {
      var hash := WindowChars(input, i, size);
      CountedIffDistinct(input[i..i + size]);
      if |hash| == size {
        return Some(i + size);
      }
    }
    return None;
  }

  /** The inner loop of `part_two`: the characters from `i`, put into a
      fresh set one at a time. */
  method WindowChars(input: seq<char>, i: nat, size: nat) returns (hash: set<char>)
    requires i + size <= |input|
    ensures hash == Chars(input[i..i + size])
  {
    hash := {};
    for ix := 0 to size
      invariant hash == Chars(input[i..i + ix])
    {
      assert input[i..i + ix + 1] == input[i..i + ix] + [input[i + ix]];
      hash := hash + {input[i + ix]};
    }
  }

  const MessagePrefixSize: nat := 14

  /** `part_two` as written: window starts `0..len - 14 - 1`, so the last
      two windows of fourteen characters are never examined. The `usize`
      subtraction panics below fifteen characters. */
  method PartTwoAsWritten(input: seq<char>) returns (r: Option<nat>)
    requires |input| >= MessagePrefixSize + 1
    ensures r == FirstMarker(input, MessagePrefixSize, |input| - MessagePrefixSize - 1)
  {
    r := ScanWindows(input, MessagePrefixSize, |input| - MessagePrefixSize - 1);
  }

  /** `part_two` scanning every window start, `0..len - 13`, as part one
      does for its windows of four. */
  method PartTwo(input: seq<char>) returns (r: Option<nat>)
    requires |input| >= MessagePrefixSize - 1
    ensures r == FirstMarker(input, MessagePrefixSize, |input| - MessagePrefixSize + 1)
  {
    r := ScanWindows(input, MessagePrefixSize, |input| - MessagePrefixSize + 1);
  }

  /** The two forms of part two agree whenever the written one finds a
      marker; they differ only when the first marker ends in the last two
      positions. */
  lemma PartTwoFormsAgree(input: seq<char>)
    requires |input| >= MessagePrefixSize + 1
    ensures FirstMarker(input, 14, |input| - 15).Some? ==>
              FirstMarker(input, 14, |input| - 13) == FirstMarker(input, 14, |input| - 15)
    ensures FirstMarker(input, 14, |input| - 15) != FirstMarker(input, 14, |input| - 13) ==>
              FirstMarker(input, 14, |input| - 13).Some? && FirstMarker(input, 14, |input| - 13).value >= |input| - 1
  {
    LongerScan(input, 14, 0, |input| - 15, |input| - 13);
  }

  // ---------------------------------------------------------------------------
  // The finding and the examples

  /** A repeated pair inside the window at `i`. */
  lemma Repeated(s: seq<char>, size: nat, i: nat, a: nat, b: nat)
    requires i + size <= |s|
    requires i <= a < b < i + size && s[a] == s[b]
    ensures !DistinctWindow(s, size, i)
  {
    assert s[i..i + size][a - i] == s[i..i + size][b - i];
  }

  /** A window of different characters ends the scan. */
  lemma FoundWindow(s: seq<char>, size: nat, i: nat, count: nat)
    requires i < count && count + size <= |s| + 1
    requires forall a, b :: i <= a < b < i + size ==> s[a] != s[b]
    ensures FirstFrom(s, size, i, count) == Some(i + size)
  {
    var w := s[i..i + size];
    forall j, k | 0 <= j < k < |w|
      ensures w[j] != w[k]
    {
      assert w[j] == s[i + j] && w[k] == s[i + k];
    }
  }

  /** The last two windows are lost: on `aabcdefghijklmn` the only marker
      ends the input, the written scan has no window start at all, and the
      full scan finds the marker at 15. */
  lemma LastWindowsMissed(s: seq<char>)
    requires s == "aabcdefghijklmn"
    ensures FirstMarker(s, 14, |s| - 15) == None
    ensures FirstMarker(s, 14, |s| - 13) == Some(15)
  {
    Repeated(s, 14, 0, 0, 1);
    FoundWindow(s, 14, 1, 2);
  }

  /** The scan from `lo` reaches `hi` when every window in between holds a
      repeated character. */
  lemma SkipWindows(s: seq<char>, size: nat, lo: nat, hi: nat, count: nat)
    requires lo <= hi <= count && count + size <= |s| + 1
    requires forall j :: lo <= j < hi ==> !DistinctWindow(s, size, j)
    ensures FirstFrom(s, size, lo, count) == FirstFrom(s, size, hi, count)
    decreases hi - lo
  {
    if lo < hi {
      SkipWindows(s, size, lo + 1, hi, count);
    }
  }

  /** The datastream `mjqjpqmgbljsphdztnvjfqwrcgsmlb`, character by character. */
  predicate Stream1(s: seq<char>) {
    |s| == 30
      && s[0] == 'm' && s[1] == 'j' && s[2] == 'q' && s[3] == 'j' && s[4] == 'p' && s[5] == 'q'
      && s[6] == 'm' && s[7] == 'g' && s[8] == 'b' && s[9] == 'l' && s[10] == 'j' && s[11] == 's'
      && s[12] == 'p' && s[13] == 'h' && s[14] == 'd' && s[15] == 'z' && s[16] == 't' && s[17] == 'n'
      && s[18] == 'v' && s[19] == 'j' && s[20] == 'f' && s[21] == 'q' && s[22] == 'w' && s[23] == 'r'
      && s[24] == 'c' && s[25] == 'g' && s[26] == 's' && s[27] == 'm' && s[28] == 'l' && s[29] == 'b'
  }

  lemma StartOfPacketExample1Skips0(s: seq<char>)
    requires Stream1(s)
    ensures FirstFrom(s, 4, 0, 27) == FirstFrom(s, 4, 3, 27)
  {
    Repeated(s, 4, 0, 1, 3);
    Repeated(s, 4, 1, 1, 3);
    Repeated(s, 4, 2, 2, 5);
    SkipWindows(s, 4, 0, 3, 27);
  }

  lemma StartOfPacketExample1Found(s: seq<char>)
    requires Stream1(s)
    ensures FirstFrom(s, 4, 3, 27) == Some(7)
  {
    FoundWindow(s, 4, 3, 27);
  }

  /** `test_part_one_1`. */
  lemma StartOfPacketExample1(s: seq<char>)
    requires Stream1(s)
    ensures FirstMarker(s, 4, |s| - 3) == Some(7)
  {
    StartOfPacketExample1Skips0(s);
    StartOfPacketExample1Found(s);
  }

  lemma StartOfMessageExample1Skips0(s: seq<char>)
    requires Stream1(s)
    ensures FirstFrom(s, 14, 0, 15) == FirstFrom(s, 14, 5, 15)
  {
    Repeated(s, 14, 0, 0, 6);
    Repeated(s, 14, 1, 1, 3);
    Repeated(s, 14, 2, 2, 5);
    Repeated(s, 14, 3, 3, 10);
    Repeated(s, 14, 4, 4, 12);
    SkipWindows(s, 14, 0, 5, 15);
  }

  lemma StartOfMessageExample1Found(s: seq<char>)
    requires Stream1(s)
    ensures FirstFrom(s, 14, 5, 15) == Some(19)
  {
    FoundWindow(s, 14, 5, 15);
  }

  /** `test_part_two_1`. */
  lemma StartOfMessageExample1(s: seq<char>)
    requires Stream1(s)
    ensures FirstMarker(s, 14, |s| - 15) == Some(19)
  {
    StartOfMessageExample1Skips0(s);
    StartOfMessageExample1Found(s);
  }

  /** The datastream `bvwbjplbgvbhsrlpgdmjqwftvncz`, character by character. */
  predicate Stream2(s: seq<char>) {
    |s| == 28
      && s[0] == 'b' && s[1] == 'v' && s[2] == 'w' && s[3] == 'b' && s[4] == 'j' && s[5] == 'p'
      && s[6] == 'l' && s[7] == 'b' && s[8] == 'g' && s[9] == 'v' && s[10] == 'b' && s[11] == 'h'
      && s[12] == 's' && s[13] == 'r' && s[14] == 'l' && s[15] == 'p' && s[16] == 'g' && s[17] == 'd'
      && s[18] == 'm' && s[19] == 'j' && s[20] == 'q' && s[21] == 'w' && s[22] == 'f' && s[23] == 't'
      && s[24] == 'v' && s[25] == 'n' && s[26] == 'c' && s[27] == 'z'
  }

  lemma StartOfPacketExample2Skips0(s: seq<char>)
    requires Stream2(s)
    ensures FirstFrom(s, 4, 0, 25) == FirstFrom(s, 4, 1, 25)
  {
    Repeated(s, 4, 0, 0, 3);
    SkipWindows(s, 4, 0, 1, 25);
  }

  lemma StartOfPacketExample2Found(s: seq<char>)
    requires Stream2(s)
    ensures FirstFrom(s, 4, 1, 25) == Some(5)
  {
    FoundWindow(s, 4, 1, 25);
  }

  /** `test_part_one_2`. */
  lemma StartOfPacketExample2(s: seq<char>)
    requires Stream2(s)
    ensures FirstMarker(s, 4, |s| - 3) == Some(5)
  {
    StartOfPacketExample2Skips0(s);
    StartOfPacketExample2Found(s);
  }

  lemma StartOfMessageExample2Skips0(s: seq<char>)
    requires Stream2(s)
    ensures FirstFrom(s, 14, 0, 13) == FirstFrom(s, 14, 5, 13)
  {
    Repeated(s, 14, 0, 0, 3);
    Repeated(s, 14, 1, 1, 9);
    Repeated(s, 14, 2, 3, 7);
    Repeated(s, 14, 3, 3, 7);
    Repeated(s, 14, 4, 5, 15);
    SkipWindows(s, 14, 0, 5, 13);
  }

  lemma StartOfMessageExample2Skips5(s: seq<char>)
    requires Stream2(s)
    ensures FirstFrom(s, 14, 5, 13) == FirstFrom(s, 14, 9, 13)
  {
    Repeated(s, 14, 5, 5, 15);
    Repeated(s, 14, 6, 6, 14);
    Repeated(s, 14, 7, 7, 10);
    Repeated(s, 14, 8, 8, 16);
    SkipWindows(s, 14, 5, 9, 13);
  }

  lemma StartOfMessageExample2Found(s: seq<char>)
    requires Stream2(s)
    ensures FirstFrom(s, 14, 9, 13) == Some(23)
  {
    FoundWindow(s, 14, 9, 13);
  }

  /** `test_part_two_2`. */
  lemma StartOfMessageExample2(s: seq<char>)
    requires Stream2(s)
    ensures FirstMarker(s, 14, |s| - 15) == Some(23)
  {
    StartOfMessageExample2Skips0(s);
    StartOfMessageExample2Skips5(s);
    StartOfMessageExample2Found(s);
  }

  /** The datastream `nppdvjthqldpwncqszvftbrmjlhg`, character by character. */
  predicate Stream3(s: seq<char>) {
    |s| == 28
      && s[0] == 'n' && s[1] == 'p' && s[2] == 'p' && s[3] == 'd' && s[4] == 'v' && s[5] == 'j'
      && s[6] == 't' && s[7] == 'h' && s[8] == 'q' && s[9] == 'l' && s[10] == 'd' && s[11] == 'p'
      && s[12] == 'w' && s[13] == 'n' && s[14] == 'c' && s[15] == 'q' && s[16] == 's' && s[17] == 'z'
      && s[18] == 'v' && s[19] == 'f' && s[20] == 't' && s[21] == 'b' && s[22] == 'r' && s[23] == 'm'
      && s[24] == 'j' && s[25] == 'l' && s[26] == 'h' && s[27] == 'g'
  }

  lemma StartOfPacketExample3Skips0(s: seq<char>)
    requires Stream3(s)
    ensures FirstFrom(s, 4, 0, 25) == FirstFrom(s, 4, 2, 25)
  {
    Repeated(s, 4, 0, 1, 2);
    Repeated(s, 4, 1, 1, 2);
    SkipWindows(s, 4, 0, 2, 25);
  }

  lemma StartOfPacketExample3Found(s: seq<char>)
    requires Stream3(s)
    ensures FirstFrom(s, 4, 2, 25) == Some(6)
  {
    FoundWindow(s, 4, 2, 25);
  }

  /** `test_part_one_3`. */
  lemma StartOfPacketExample3(s: seq<char>)
    requires Stream3(s)
    ensures FirstMarker(s, 4, |s| - 3) == Some(6)
  {
    StartOfPacketExample3Skips0(s);
    StartOfPacketExample3Found(s);
  }

  lemma StartOfMessageExample3Skips0(s: seq<char>)
    requires Stream3(s)
    ensures FirstFrom(s, 14, 0, 13) == FirstFrom(s, 14, 5, 13)
  {
    Repeated(s, 14, 0, 0, 13);
    Repeated(s, 14, 1, 1, 2);
    Repeated(s, 14, 2, 2, 11);
    Repeated(s, 14, 3, 3, 10);
    Repeated(s, 14, 4, 8, 15);
    SkipWindows(s, 14, 0, 5, 13);
  }

  lemma StartOfMessageExample3Skips5(s: seq<char>)
    requires Stream3(s)
    ensures FirstFrom(s, 14, 5, 13) == FirstFrom(s, 14, 9, 13)
  {
    Repeated(s, 14, 5, 8, 15);
    Repeated(s, 14, 6, 8, 15);
    Repeated(s, 14, 7, 8, 15);
    Repeated(s, 14, 8, 8, 15);
    SkipWindows(s, 14, 5, 9, 13);
  }

  lemma StartOfMessageExample3Found(s: seq<char>)
    requires Stream3(s)
    ensures FirstFrom(s, 14, 9, 13) == Some(23)
  {
    FoundWindow(s, 14, 9, 13);
  }

  /** `test_part_two_3`. */
  lemma StartOfMessageExample3(s: seq<char>)
    requires Stream3(s)
    ensures FirstMarker(s, 14, |s| - 15) == Some(23)
  {
    StartOfMessageExample3Skips0(s);
    StartOfMessageExample3Skips5(s);
    StartOfMessageExample3Found(s);
  }

  /** The datastream `nznrnfrfntjfmvfwmzdfjlvtqnbhcprsg`, character by character. */
  predicate Stream4(s: seq<char>) {
    |s| == 33
      && s[0] == 'n' && s[1] == 'z' && s[2] == 'n' && s[3] == 'r' && s[4] == 'n' && s[5] == 'f'
      && s[6] == 'r' && s[7] == 'f' && s[8] == 'n' && s[9] == 't' && s[10] == 'j' && s[11] == 'f'
      && s[12] == 'm' && s[13] == 'v' && s[14] == 'f' && s[15] == 'w' && s[16] == 'm' && s[17] == 'z'
      && s[18] == 'd' && s[19] == 'f' && s[20] == 'j' && s[21] == 'l' && s[22] == 'v' && s[23] == 't'
      && s[24] == 'q' && s[25] == 'n' && s[26] == 'b' && s[27] == 'h' && s[28] == 'c' && s[29] == 'p'
      && s[30] == 'r' && s[31] == 's' && s[32] == 'g'
  }

  lemma StartOfPacketExample4Skips0(s: seq<char>)
    requires Stream4(s)
    ensures FirstFrom(s, 4, 0, 30) == FirstFrom(s, 4, 5, 30)
  {
    Repeated(s, 4, 0, 0, 2);
    Repeated(s, 4, 1, 2, 4);
    Repeated(s, 4, 2, 2, 4);
    Repeated(s, 4, 3, 3, 6);
    Repeated(s, 4, 4, 5, 7);
    SkipWindows(s, 4, 0, 5, 30);
  }

  lemma StartOfPacketExample4Skips5(s: seq<char>)
    requires Stream4(s)
    ensures FirstFrom(s, 4, 5, 30) == FirstFrom(s, 4, 6, 30)
  {
    Repeated(s, 4, 5, 5, 7);
    SkipWindows(s, 4, 5, 6, 30);
  }

  lemma StartOfPacketExample4Found(s: seq<char>)
    requires Stream4(s)
    ensures FirstFrom(s, 4, 6, 30) == Some(10)
  {
    FoundWindow(s, 4, 6, 30);
  }

  /** `test_part_one_4`. */
  lemma StartOfPacketExample4(s: seq<char>)
    requires Stream4(s)
    ensures FirstMarker(s, 4, |s| - 3) == Some(10)
  {
    StartOfPacketExample4Skips0(s);
    StartOfPacketExample4Skips5(s);
    StartOfPacketExample4Found(s);
  }

  lemma StartOfMessageExample4Skips0(s: seq<char>)
    requires Stream4(s)
    ensures FirstFrom(s, 14, 0, 18) == FirstFrom(s, 14, 5, 18)
  {
    Repeated(s, 14, 0, 0, 2);
    Repeated(s, 14, 1, 2, 4);
    Repeated(s, 14, 2, 2, 4);
    Repeated(s, 14, 3, 3, 6);
    Repeated(s, 14, 4, 4, 8);
    SkipWindows(s, 14, 0, 5, 18);
  }

  lemma StartOfMessageExample4Skips5(s: seq<char>)
    requires Stream4(s)
    ensures FirstFrom(s, 14, 5, 18) == FirstFrom(s, 14, 10, 18)
  {
    Repeated(s, 14, 5, 5, 7);
    Repeated(s, 14, 6, 7, 11);
    Repeated(s, 14, 7, 7, 11);
    Repeated(s, 14, 8, 10, 20);
    Repeated(s, 14, 9, 10, 20);
    SkipWindows(s, 14, 5, 10, 18);
  }

  lemma StartOfMessageExample4Skips10(s: seq<char>)
    requires Stream4(s)
    ensures FirstFrom(s, 14, 10, 18) == FirstFrom(s, 14, 15, 18)
  {
    Repeated(s, 14, 10, 10, 20);
    Repeated(s, 14, 11, 11, 14);
    Repeated(s, 14, 12, 12, 16);
    Repeated(s, 14, 13, 13, 22);
    Repeated(s, 14, 14, 14, 19);
    SkipWindows(s, 14, 10, 15, 18);
  }

  lemma StartOfMessageExample4Found(s: seq<char>)
    requires Stream4(s)
    ensures FirstFrom(s, 14, 15, 18) == Some(29)
  {
    FoundWindow(s, 14, 15, 18);
  }

  /** `test_part_two_4`. */
  lemma StartOfMessageExample4(s: seq<char>)
    requires Stream4(s)
    ensures FirstMarker(s, 14, |s| - 15) == Some(29)
  {
    StartOfMessageExample4Skips0(s);
    StartOfMessageExample4Skips5(s);
    StartOfMessageExample4Skips10(s);
    StartOfMessageExample4Found(s);
  }

  /** The datastream `zcfzfwzzqfrljwzlrfnpqdbhtmscgvjw`, character by character. */
  predicate Stream5(s: seq<char>) {
    |s| == 32
      && s[0] == 'z' && s[1] == 'c' && s[2] == 'f' && s[3] == 'z' && s[4] == 'f' && s[5] == 'w'
      && s[6] == 'z' && s[7] == 'z' && s[8] == 'q' && s[9] == 'f' && s[10] == 'r' && s[11] == 'l'
      && s[12] == 'j' && s[13] == 'w' && s[14] == 'z' && s[15] == 'l' && s[16] == 'r' && s[17] == 'f'
      && s[18] == 'n' && s[19] == 'p' && s[20] == 'q' && s[21] == 'd' && s[22] == 'b' && s[23] == 'h'
      && s[24] == 't' && s[25] == 'm' && s[26] == 's' && s[27] == 'c' && s[28] == 'g' && s[29] == 'v'
      && s[30] == 'j' && s[31] == 'w'
  }

  lemma StartOfPacketExample5Skips0(s: seq<char>)
    requires Stream5(s)
    ensures FirstFrom(s, 4, 0, 29) == FirstFrom(s, 4, 5, 29)
  {
    Repeated(s, 4, 0, 0, 3);
    Repeated(s, 4, 1, 2, 4);
    Repeated(s, 4, 2, 2, 4);
    Repeated(s, 4, 3, 3, 6);
    Repeated(s, 4, 4, 6, 7);
    SkipWindows(s, 4, 0, 5, 29);
  }

  lemma StartOfPacketExample5Skips5(s: seq<char>)
    requires Stream5(s)
    ensures FirstFrom(s, 4, 5, 29) == FirstFrom(s, 4, 7, 29)
  {
    Repeated(s, 4, 5, 6, 7);
    Repeated(s, 4, 6, 6, 7);
    SkipWindows(s, 4, 5, 7, 29);
  }

  lemma StartOfPacketExample5Found(s: seq<char>)
    requires Stream5(s)
    ensures FirstFrom(s, 4, 7, 29) == Some(11)
  {
    FoundWindow(s, 4, 7, 29);
  }

  /** `test_part_one_5`. */
  lemma StartOfPacketExample5(s: seq<char>)
    requires Stream5(s)
    ensures FirstMarker(s, 4, |s| - 3) == Some(11)
  {
    StartOfPacketExample5Skips0(s);
    StartOfPacketExample5Skips5(s);
    StartOfPacketExample5Found(s);
  }

  lemma StartOfMessageExample5Skips0(s: seq<char>)
    requires Stream5(s)
    ensures FirstFrom(s, 14, 0, 17) == FirstFrom(s, 14, 5, 17)
  {
    Repeated(s, 14, 0, 0, 3);
    Repeated(s, 14, 1, 2, 4);
    Repeated(s, 14, 2, 2, 4);
    Repeated(s, 14, 3, 3, 6);
    Repeated(s, 14, 4, 4, 9);
    SkipWindows(s, 14, 0, 5, 17);
  }

  lemma StartOfMessageExample5Skips5(s: seq<char>)
    requires Stream5(s)
    ensures FirstFrom(s, 14, 5, 17) == FirstFrom(s, 14, 10, 17)
  {
    Repeated(s, 14, 5, 5, 13);
    Repeated(s, 14, 6, 6, 7);
    Repeated(s, 14, 7, 7, 14);
    Repeated(s, 14, 8, 8, 20);
    Repeated(s, 14, 9, 9, 17);
    SkipWindows(s, 14, 5, 10, 17);
  }

  lemma StartOfMessageExample5Skips10(s: seq<char>)
    requires Stream5(s)
    ensures FirstFrom(s, 14, 10, 17) == FirstFrom(s, 14, 12, 17)
  {
    Repeated(s, 14, 10, 10, 16);
    Repeated(s, 14, 11, 11, 15);
    SkipWindows(s, 14, 10, 12, 17);
  }

  lemma StartOfMessageExample5Found(s: seq<char>)
    requires Stream5(s)
    ensures FirstFrom(s, 14, 12, 17) == Some(26)
  {
    FoundWindow(s, 14, 12, 17);
  }

  /** `test_part_two_5`. */
  lemma StartOfMessageExample5(s: seq<char>)
    requires Stream5(s)
    ensures FirstMarker(s, 14, |s| - 15) == Some(26)
  {
    StartOfMessageExample5Skips0(s);
    StartOfMessageExample5Skips5(s);
    StartOfMessageExample5Skips10(s);
    StartOfMessageExample5Found(s);
  }
}
