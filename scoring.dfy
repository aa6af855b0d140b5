/** The scoring rules of the challenge runner: the exact-match check that
    decides whether a test case passed, the positional character similarity
    percentage, the pass-rate percentage reported at the end of a run, and the
    three-way choice of how a percentage is displayed. */
module Scoring {
  import opened Text

  function Min(a: nat, b: nat): nat { if a <= b then a else b }
  function Max(a: nat, b: nat): nat { if a >= b then a else b }

  /** isAnswerCorrect: equality after trimming both sides. An output equal
      to the expected text is always correct. */
  function IsAnswerCorrect(output: string, expected: string): (b: bool)
    ensures output == expected ==> b
    ensures b ==> |Trim(output)| == |Trim(expected)|
  {
    Trim(output) == Trim(expected)
  }

  /** The check does not care which argument is the output, nor about
      whitespace added around either argument. */
  lemma IsAnswerCorrectSymmetricAndPadded(w1: string, output: string, w2: string, expected: string)
    requires AllWhitespace(w1) && AllWhitespace(w2)
    ensures IsAnswerCorrect(output, expected) == IsAnswerCorrect(expected, output)
    ensures IsAnswerCorrect(w1 + output + w2, expected) == IsAnswerCorrect(output, expected)
    ensures IsAnswerCorrect(output, w1 + expected + w2) == IsAnswerCorrect(output, expected)
  {
    TrimIgnoresOuterWhitespace(w1, output, w2);
    TrimIgnoresOuterWhitespace(w1, expected, w2);
  }

  /** Any text matches its own trimmed form, and matches itself surrounded
      by blanks; trimming an output first does not change the verdict. */
  lemma IsAnswerCorrectReflexive(s: string, e: string)
    ensures IsAnswerCorrect(s, Trim(s))
    ensures IsAnswerCorrect(" " + s + " ", s)
    ensures IsAnswerCorrect(Trim(s), e) == IsAnswerCorrect(s, e)
  {
    TrimIdempotent(s);
    TrimIgnoresOuterWhitespace(" ", s, " ");
  }

  /** Number of positions below n at which a and b hold the same character. */
  function MatchCount(a: string, b: string, n: nat): (c: nat)
    requires n <= |a| && n <= |b|
    ensures c <= n
    ensures c == n <==> a[..n] == b[..n]
  {
    if n == 0 then 0
    else
      var c := MatchCount(a, b, n - 1) + (if a[n - 1] == b[n - 1] then 1 else 0);
      assert a[..n] == a[..n - 1] + [a[n - 1]] && b[..n] == b[..n - 1] + [b[n - 1]];
      assert a[..n] == b[..n] ==> a[..n - 1] == a[..n][..n - 1] == b[..n][..n - 1] == b[..n - 1];
      c
  }

  /** Math.floor((part / whole) * 100), taken over the integers: the largest
      p with p / 100 at most part / whole. */
  function Percentage(part: nat, whole: nat): (p: nat)
    requires whole > 0
    ensures p * whole <= part * 100 < (p + 1) * whole
  {
    var p := part * 100 / whole;
    assert part * 100 == p * whole + part * 100 % whole;
    p
  }

  /** Multiplying by a natural keeps the order. */
  lemma {:induction false} MulMonotone(a: nat, b: nat, c: nat)
    requires a <= b
    ensures a * c <= b * c
    decreases c
  {
    if c > 0 {
      MulMonotone(a, b, c - 1);
      assert a * c == a * (c - 1) + a && b * c == b * (c - 1) + b;
    }
  }

  /** Comparing two multiples of the same positive number compares the
      factors. */
  lemma FactorsOrdered(a: nat, b: nat, c: nat)
    requires c > 0
    ensures a * c <= b * c ==> a <= b
    ensures a * c < b * c ==> a < b
  {
    if a > b {
      MulMonotone(b + 1, a, c);
      assert (b + 1) * c == b * c + c;
    } else if a == b {
      assert a * c == b * c;
    }
  }

  /** A ratio below one, scaled to a percentage and floored, stays below 100;
      a ratio of one gives exactly 100. */
  lemma PercentBelowFull(part: nat, whole: nat)
    requires part <= whole && whole > 0
    ensures Percentage(part, whole) <= 100
    ensures Percentage(part, whole) == 100 <==> part == whole
  {
    var x := part * 100;
    var q, r := x / whole, x % whole;
    assert x == q * whole + r && r < whole;
    MulMonotone(part, whole, 100);
    FactorsOrdered(q, 100, whole);
    assert (q + 1) * whole == q * whole + whole;
    FactorsOrdered(100, q + 1, whole);
    if part < whole {
      MulMonotone(part + 1, whole, 100);
    }
  }

  /** Two different texts agree at fewer positions than the longer one has. */
  lemma MatchesBelowLonger(o: string, e: string)
    requires o != e
    ensures MatchCount(o, e, Min(|o|, |e|)) < Max(|o|, |e|)
  {
    var n := Min(|o|, |e|);
    if |o| == |e| {
      assert o[..n] == o && e[..n] == e;
    }
  }

  /** The similarity of two different texts: the floored percentage of
      positions below the shorter length holding the same character, out of
      the longer length. Never 100. */
  function PositionalPercentage(o: string, e: string): (p: nat)
    requires o != e
    ensures p < 100
  {
    var len := Max(|o|, |e|);
    var matches := MatchCount(o, e, Min(|o|, |e|));
    MatchesBelowLonger(o, e);
    PercentBelowFull(matches, len);
    Percentage(matches, len)
  }

  /** calculateMatchPercentage as a value: 0 when either argument is empty,
      100 when the trimmed texts are equal, otherwise the positional
      similarity of the trimmed texts. */
  function MatchPercentage(output: string, expected: string): (p: nat)
    ensures p <= 100
    ensures output == [] || expected == [] ==> p == 0
    ensures output != [] && expected != [] ==> (p == 100 <==> Trim(output) == Trim(expected))
  {
    if output == [] || expected == [] then 0
    else if Trim(output) == Trim(expected) then 100
    else PositionalPercentage(Trim(output), Trim(expected))
  }

  /** The counting loop of calculateMatchPercentage: how many positions
      below the shorter length hold the same character in both texts. */
  method CountMatches(o: string, e: string) returns (matches: nat)
    ensures matches == MatchCount(o, e, Min(|o|, |e|))
  {
    matches := 0;
    var i := 0;
    while i < Min(|o|, |e|)
      invariant i <= Min(|o|, |e|)
      invariant matches == MatchCount(o, e, i)
    {
      if o[i] == e[i] {
        matches := matches + 1;
      }
      i := i + 1;
    }
  }

  /** calculateMatchPercentage as the script computes it. */
  method CalculateMatchPercentage(output: string, expected: string) returns (p: nat)
    ensures p == MatchPercentage(output, expected)
  {
    if output == [] || expected == [] {
      return 0;
    }
    var o := Trim(output);
    var e := Trim(expected);
    if o == e {
      return 100;
    }
    var len := Max(|o|, |e|);
    MatchesBelowLonger(o, e);
    var matches := CountMatches(o, e);
    p := Percentage(matches, len);
  }

  /** The percentage a finished run reports. Math.floor(passCount /
      total * 100) with no test cases is 0 / 0, which is NaN. */
  datatype Score = Percent(value: int) | NaN

  function FinalScore(passes: nat, total: nat): (s: Score)
    requires total == 0 ==> passes == 0
    ensures s == NaN <==> total == 0
    ensures 0 < total && passes <= total ==> 0 <= s.value <= 100 && (s == Percent(100) <==> passes == total)
  {
    if total == 0 then NaN
    else
      PercentBelowFull(if passes <= total then passes else total, total);
      Percent(Percentage(passes, total))
  }

  /** The style updateMatchDisplay gives the percentage label. */
  datatype Tier = Full | Partial | NoMatch

  /** Correct beats any percentage; otherwise only a positive number shows
      as partial (NaN compares false with 0). */
  function DisplayTier(score: Score, isCorrect: bool): (t: Tier)
    ensures t == Full <==> isCorrect
    ensures t == Partial <==> !isCorrect && score.Percent? && score.value > 0
  {
    if isCorrect then Full
    else if score.Percent? && score.value > 0 then Partial
    else NoMatch
  }
}
