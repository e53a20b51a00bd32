// Day 3: Rucksack Reorganization. Only the item priority `score` carries
// logic; both parts of the day return `None`.

module Rucksack {

  predicate IsLower(c: char) { 'a' <= c <= 'z' }
  predicate IsUpper(c: char) { 'A' <= c <= 'Z' }

  /** `score`: lower-case letters are worth 1 to 26, upper-case letters 27 to
      52, and every other character 0. */
  function Score(c: char): (r: nat)
    ensures r <= 52
    ensures IsLower(c) <==> 1 <= r <= 26
    ensures IsUpper(c) <==> 27 <= r <= 52
    ensures r == 0 <==> !IsLower(c) && !IsUpper(c)
  {
    if IsLower(c) then c as int - 96
    else if IsUpper(c) then c as int - 64 + 26
    else 0
  }

  /** The letter worth `n`. */
  function Letter(n: nat): (c: char)
    requires 1 <= n <= 52
    ensures IsLower(c) || IsUpper(c)
  {
    if n <= 26 then (n + 96) as char else (n - 26 + 64) as char
  }

  /** Every priority from 1 to 52 belongs to exactly one letter. */
  lemma ScoreOfLetter(n: nat)
    requires 1 <= n <= 52
    ensures Score(Letter(n)) == n
  {
  }

  lemma LetterOfScore(c: char)
    requires IsLower(c) || IsUpper(c)
    ensures Letter(Score(c)) == c
  {
  }

  /** Two letters with the same priority are the same letter. */
  lemma ScoreInjective(c: char, d: char)
    requires IsLower(c) || IsUpper(c)
    requires Score(c) == Score(d)
    ensures c == d
  {
    LetterOfScore(c);
    LetterOfScore(d);
  }

  /** Within each case, priorities follow the alphabet. */
  lemma ScoreFollowsAlphabet(c: char, d: char)
    requires (IsLower(c) && IsLower(d)) || (IsUpper(c) && IsUpper(d))
    ensures Score(c) < Score(d) <==> c < d
  {
  }

  lemma ScoreExamples()
    ensures Score('a') == 1 && Score('z') == 26 && Score('A') == 27 && Score('Z') == 52
  {
  }
}
