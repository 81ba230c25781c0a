/** The watch's headline layout (watch-app/ContentView.swift): every way to break the words into lines is tried. */
module Headline {
  import opened Text

  // ---------------------------------------------------------------- words

  /** The maximal runs without white space. */
  function SplitWords(s: string): (words: seq<string>)
    ensures !StartsWord(s) ==> words != []
  {
    if s == "" then [] else AddChar(SplitWords(s[..|s| - 1]), StartsWord(s[..|s| - 1]), s[|s| - 1])
  }

  /** Whether the next letter starts a new word. */
  predicate StartsWord(s: string) {
    s == "" || IsSpace(s[|s| - 1])
  }

  function AddChar(words: seq<string>, startsNew: bool, c: char): (longer: seq<string>)
    requires !startsNew ==> words != []
    ensures !IsSpace(c) ==> longer != []
  {
    if IsSpace(c) then words
    else if startsNew then words + [[c]]
    else words[..|words| - 1] + [words[|words| - 1] + [c]]
  }

  predicate IsWord(w: string) {
    w != "" && forall c <- w :: !IsSpace(c)
  }

  function Join(words: seq<string>): string {
    if words == [] then ""
    else if |words| == 1 then words[0]
    else Join(words[..|words| - 1]) + " " + words[|words| - 1]
  }

  lemma {:induction false} SplitWord(w: string)
    requires IsWord(w)
    ensures SplitWords(w) == [w]
  {
    var init, c := w[..|w| - 1], w[|w| - 1];
    assert w == init + [c] && c in w && !IsSpace(c);
    if init == "" {
      assert SplitWords(init) == [];
    } else {
      assert forall x <- init :: x in w;
      SplitWord(init);
    }
  }

  lemma {:induction false} SplitsIntoWords(s: string)
    ensures forall w <- SplitWords(s) :: IsWord(w)
  {
    if s != "" {
      var words, c := SplitWords(s[..|s| - 1]), s[|s| - 1];
      SplitsIntoWords(s[..|s| - 1]);
      if !IsSpace(c) && !StartsWord(s[..|s| - 1]) {
        var last := words[|words| - 1];
        assert IsWord(last) && forall x <- last + [c] :: x in last || x == c;
      }
    }
  }

  /** A space between two texts separates their words. */
  lemma {:induction false} SplitConcat(s: string, t: string)
    ensures SplitWords(s + " " + t) == SplitWords(s) + SplitWords(t)
  {
    var all := s + " " + t;
    assert IsSpace(' ');
    if t == "" {
      assert all[..|all| - 1] == s;
    } else {
      hide IsSpace, AddChar;
      var init := t[..|t| - 1];
      assert all[..|all| - 1] == s + " " + init && all[|all| - 1] == t[|t| - 1];
      SplitConcat(s, init);
      assert StartsWord(s + " " + init) == StartsWord(init);
      AddCharBehind(SplitWords(s), SplitWords(init), StartsWord(init), t[|t| - 1]);
    }
  }

  lemma AddCharBehind(before: seq<string>, words: seq<string>, startsNew: bool, c: char)
    requires !startsNew ==> words != []
    ensures AddChar(before + words, startsNew, c) == before + AddChar(words, startsNew, c)
  {
  }

  lemma OneMoreWord(before: string, last: string)
    requires IsWord(last)
    ensures SplitWords(before + " " + last) == SplitWords(before) + [last]
  {
    hide SplitWords;
    SplitConcat(before, last);
    SplitWord(last);
  }

  lemma NoWords()
    ensures SplitWords("") == []
  {
  }

  /** Splitting undoes joining. */
  lemma {:induction false} SplitJoin(words: seq<string>)
    requires forall w <- words :: IsWord(w)
    ensures SplitWords(Join(words)) == words
  {
    hide SplitWords, IsWord;
    if words == [] {
      NoWords();
    } else if |words| == 1 {
      SplitWord(words[0]);
    } else {
      SplitJoin(words[..|words| - 1]);
      OneMoreWord(Join(words[..|words| - 1]), words[|words| - 1]);
    }
  }

  // ---------------------------------------------------------------- breakpoints

  /** Every increasing choice of `remaining` breakpoints from start..n-1, smallest first. */
  function Choices(start: nat, n: nat, remaining: nat): seq<seq<nat>>
    decreases remaining, n - start
  {
    if remaining == 0 then [[]]
    else if start + remaining > n then []
    else Prepend([start], Choices(start + 1, n, remaining - 1)) + Choices(start + 1, n, remaining)
  }

  function Prepend(prefix: seq<nat>, choices: seq<seq<nat>>): (all: seq<seq<nat>>)
    ensures |all| == |choices| && forall i | 0 <= i < |all| :: all[i] == prefix + choices[i]
  {
    seq(|choices|, i requires 0 <= i < |choices| => prefix + choices[i])
  }

  predicate IsChoice(c: seq<nat>, start: nat, n: nat, size: nat) {
    && |c| == size
    && (forall i | 0 <= i < |c| :: start <= c[i] < n)
    && (forall i, j | 0 <= i < j < |c| :: c[i] < c[j])
  }

  /** Lexicographic order: the first difference decides. */
  predicate LexLess(c: seq<nat>, d: seq<nat>) {
    d != [] && (c == [] || c[0] < d[0] || (c[0] == d[0] && LexLess(c[1..], d[1..])))
  }

  /** Binomial coefficients, by Pascal's rule. */
  function Binomial(n: nat, k: nat): nat {
    if k == 0 then 1 else if n < k then 0 else Binomial(n - 1, k - 1) + Binomial(n - 1, k)
  }

  /** Exactly the increasing choices are listed. */
  lemma {:induction false} ChoicesExact(c: seq<nat>, start: nat, n: nat, size: nat)
    ensures c in Choices(start, n, size) <==> IsChoice(c, start, n, size)
    decreases size, n - start
  {
    if size == 0 {
      assert IsChoice(c, start, n, 0) <==> c == [];
    } else if start + size > n {
      if IsChoice(c, start, n, size) { ChoiceRoom(c, start, n); }
    } else {
      ChoicesExact(c, start + 1, n, size);
      if c != [] { ChoicesExact(c[1..], start + 1, n, size - 1); }
      HeadSplits(c, start, n, size);
      PrependMember(start, Choices(start + 1, n, size - 1), c);
      hide IsChoice, Prepend;
    }
  }

  lemma PrependMember(start: nat, choices: seq<seq<nat>>, c: seq<nat>)
    ensures c in Prepend([start], choices) <==> c != [] && c[0] == start && c[1..] in choices
  {
    var all := Prepend([start], choices);
    if c in all {
      var i :| 0 <= i < |choices| && c == [start] + choices[i];
      assert c[1..] == choices[i];
    }
    if c != [] && c[0] == start && c[1..] in choices {
      var i :| 0 <= i < |choices| && choices[i] == c[1..];
      assert c == [start] + choices[i] && all[i] == c;
    }
  }

  lemma {:induction false} ChoiceRoom(c: seq<nat>, start: nat, n: nat)
    requires IsChoice(c, start, n, |c|) && c != []
    ensures start + |c| - 1 <= c[|c| - 1] < n
  {
    if |c| > 1 { ChoiceRoom(c[..|c| - 1], start, n); }
  }

  /** A choice starts at `start` and goes on above it, or lies above it altogether. */
  lemma HeadSplits(c: seq<nat>, start: nat, n: nat, size: nat)
    requires size > 0 && start < n
    ensures IsChoice(c, start, n, size) <==>
            (c != [] && c[0] == start && IsChoice(c[1..], start + 1, n, size - 1)) || IsChoice(c, start + 1, n, size)
  {
    if c != [] {
      assert c == [c[0]] + c[1..];
      if IsChoice(c, start, n, size) {
        assert forall i | 0 < i < |c| :: c[0] < c[i];
      }
    }
  }

  predicate Ordered(all: seq<seq<nat>>) {
    forall i, j | 0 <= i < j < |all| :: LexLess(all[i], all[j])
  }

  predicate Differ(all: seq<seq<nat>>) {
    forall i, j | 0 <= i < j < |all| :: all[i] != all[j]
  }

  lemma LexPrepend(start: nat, c: seq<nat>, d: seq<nat>)
    ensures LexLess([start] + c, [start] + d) == LexLess(c, d)
  {
    assert ([start] + c)[1..] == c && ([start] + d)[1..] == d;
  }

  lemma PrependOrdered(start: nat, choices: seq<seq<nat>>)
    requires Ordered(choices)
    ensures Ordered(Prepend([start], choices))
  {
    var all := Prepend([start], choices);
    forall i, j | 0 <= i < j < |all| ensures LexLess(all[i], all[j]) {
      assert all[i] == [start] + choices[i] && all[j] == [start] + choices[j];
      LexPrepend(start, choices[i], choices[j]);
    }
  }

  lemma OrderedConcat(low: seq<seq<nat>>, high: seq<seq<nat>>, start: nat)
    requires Ordered(low) && Ordered(high)
    requires forall c <- low :: c != [] && c[0] == start
    requires forall d <- high :: d != [] && d[0] > start
    ensures Ordered(low + high)
  {
    forall i, j | 0 <= i < |low| && 0 <= j < |high| ensures LexLess(low[i], high[j]) {
      assert low[i] in low && high[j] in high;
    }
  }

  lemma {:induction false} LexLessStrict(c: seq<nat>)
    ensures !LexLess(c, c)
  {
    if c != [] { LexLessStrict(c[1..]); }
  }

  lemma OrderedDiffer(choices: seq<seq<nat>>)
    requires Ordered(choices)
    ensures Differ(choices)
  {
    hide LexLess;
    forall i, j | 0 <= i < j < |choices| ensures choices[i] != choices[j] { LexLessStrict(choices[j]); }
  }

  /** They come in lexicographic order, so none comes twice. */
  lemma {:induction false} ChoicesOrdered(start: nat, n: nat, size: nat)
    ensures Ordered(Choices(start, n, size))
    ensures Differ(Choices(start, n, size))
    decreases size, n - start
  {
    hide LexLess, Differ;
    if size > 0 && start + size <= n {
      var shorter, high := Choices(start + 1, n, size - 1), Choices(start + 1, n, size);
      ChoicesOrdered(start + 1, n, size - 1);
      ChoicesOrdered(start + 1, n, size);
      PrependOrdered(start, shorter);
      forall d <- high ensures d != [] && d[0] > start { ChoicesExact(d, start + 1, n, size); }
      OrderedConcat(Prepend([start], shorter), high, start);
    }
    OrderedDiffer(Choices(start, n, size));
  }

  lemma {:induction false} ChoicesCount(start: nat, n: nat, size: nat)
    requires start <= n
    ensures |Choices(start, n, size)| == Binomial(n - start, size)
    decreases size, n - start
  {
    if size > 0 && start + size <= n {
      ChoicesCount(start + 1, n, size - 1);
      ChoicesCount(start + 1, n, size);
    }
  }

  /** The nested recursion of candidateBreakpoints: it appends to the results as it goes. */
  method Recurse(n: nat, start: nat, remaining: nat, current: seq<nat>, results: seq<seq<nat>>)
    returns (extended: seq<seq<nat>>)
    ensures extended == results + Prepend(current, Choices(start, n, remaining))
    decreases remaining
  {
    hide Choices, Prepend;
    if remaining == 0 {
      NoneRemaining(current, start, n);
      return results + [current];
    }
    var minIndex, maxIndex := start, n - remaining;
    if minIndex > maxIndex {
      NoRoom(current, start, n, remaining);
      return results;
    }
    extended := results;
    NoRoom(current, maxIndex + 1, n, remaining);
    for index := minIndex to maxIndex + 1
      invariant extended + Prepend(current, Choices(index, n, remaining))
                == results + Prepend(current, Choices(start, n, remaining))
    {
      PrependStep(extended, current, index, n, remaining);
      extended := Recurse(n, index + 1, remaining - 1, current + [index], extended);
    }
  }

  lemma NoneRemaining(current: seq<nat>, start: nat, n: nat)
    ensures Prepend(current, Choices(start, n, 0)) == [current]
  {
    assert current + [] == current;
  }

  lemma NoRoom(current: seq<nat>, start: nat, n: nat, remaining: nat)
    requires start + remaining > n && remaining > 0
    ensures Prepend(current, Choices(start, n, remaining)) == []
  {
  }

  lemma PrependTwice(current: seq<nat>, index: nat, choices: seq<seq<nat>>)
    ensures Prepend(current, Prepend([index], choices)) == Prepend(current + [index], choices)
  {
    assert forall i | 0 <= i < |choices| :: current + ([index] + choices[i]) == current + [index] + choices[i];
  }

  lemma PrependConcat(current: seq<nat>, choices: seq<seq<nat>>, more: seq<seq<nat>>)
    ensures Prepend(current, choices + more) == Prepend(current, choices) + Prepend(current, more)
  {
  }

  lemma PrependStep(results: seq<seq<nat>>, current: seq<nat>, index: nat, n: nat, remaining: nat)
    requires remaining > 0 && index + remaining <= n
    ensures results + Prepend(current, Choices(index, n, remaining))
            == results + Prepend(current + [index], Choices(index + 1, n, remaining - 1))
                       + Prepend(current, Choices(index + 1, n, remaining))
  {
    hide Prepend;
    PrependTwice(current, index, Choices(index + 1, n, remaining - 1));
    PrependConcat(current, Prepend([index], Choices(index + 1, n, remaining - 1)), Choices(index + 1, n, remaining));
  }

  method CandidateBreakpoints(wordCount: nat, lineCount: int) returns (results: seq<seq<nat>>)
    ensures results == Choices(1, wordCount, if lineCount > 1 then lineCount - 1 else 0)
  {
    if lineCount <= 1 { return [[]]; }
    results := Recurse(wordCount, 1, lineCount - 1, [], []);
    var choices := Choices(1, wordCount, lineCount - 1);
    assert forall i | 0 <= i < |choices| :: [] + choices[i] == choices[i];
    assert Prepend([], choices) == choices;
  }

  // ---------------------------------------------------------------- lines

  /** Where the i-th line starts. */
  function Boundary(breakpoints: seq<nat>, n: nat, i: nat): nat
    requires i <= |breakpoints| + 1
  {
    if i == 0 then 0 else if i == |breakpoints| + 1 then n else breakpoints[i - 1]
  }

  predicate Breaks(breakpoints: seq<nat>, n: nat) {
    n > 0 && IsChoice(breakpoints, 1, n, |breakpoints|)
  }

  lemma BoundariesRise(breakpoints: seq<nat>, n: nat, i: nat)
    requires Breaks(breakpoints, n) && i <= |breakpoints|
    ensures Boundary(breakpoints, n, i) < Boundary(breakpoints, n, i + 1) <= n
  {
  }

  /** The words of the i-th line. */
  function LineWords(words: seq<string>, breakpoints: seq<nat>, i: nat): seq<string>
    requires Breaks(breakpoints, |words|) && i <= |breakpoints|
  {
    BoundariesRise(breakpoints, |words|, i);
    words[Boundary(breakpoints, |words|, i)..Boundary(breakpoints, |words|, i + 1)]
  }

  function Layout(words: seq<string>, breakpoints: seq<nat>): (lines: seq<string>)
    requires Breaks(breakpoints, |words|)
    ensures |lines| == |breakpoints| + 1
  {
    seq(|breakpoints| + 1, i requires 0 <= i <= |breakpoints| => Join(LineWords(words, breakpoints, i)))
  }

  method BuildHeadlineLines(words: seq<string>, breakpoints: seq<nat>) returns (lines: seq<string>)
    requires Breaks(breakpoints, |words|)
    ensures lines == Layout(words, breakpoints)
  {
    var boundaries := [0] + breakpoints + [|words|];
    lines := [];
    for index := 0 to |boundaries| - 1
      invariant |lines| == index && forall i | 0 <= i < index :: lines[i] == Layout(words, breakpoints)[i]
    {
      var start, end := boundaries[index], boundaries[index + 1];
      BoundariesRise(breakpoints, |words|, index);
      lines := lines + [Join(words[start..end])];
    }
  }

  /** The words of each line, read back. */
  function ReadBack(lines: seq<string>): seq<string> {
    if lines == [] then [] else ReadBack(lines[..|lines| - 1]) + SplitWords(lines[|lines| - 1])
  }

  /** A layout has non-empty lines that use every word once and in order. */
  lemma LayoutKeepsWords(words: seq<string>, breakpoints: seq<nat>)
    requires Breaks(breakpoints, |words|) && forall w <- words :: IsWord(w)
    ensures var lines := Layout(words, breakpoints);
            && |lines| == |breakpoints| + 1
            && (forall line <- lines :: line != "")
            && ReadBack(lines) == words
  {
    var lines := Layout(words, breakpoints);
    forall i | 0 <= i < |lines|
      ensures SplitWords(lines[i]) == LineWords(words, breakpoints, i) && lines[i] != ""
    {
      BoundariesRise(breakpoints, |words|, i);
      SplitJoin(LineWords(words, breakpoints, i));
    }
    ReadsWords(words, breakpoints, lines, |lines|);
    assert lines[..|lines|] == lines && words[..|words|] == words;
  }

  lemma {:induction false} ReadsWords(words: seq<string>, breakpoints: seq<nat>, lines: seq<string>, k: nat)
    requires Breaks(breakpoints, |words|) && |lines| == |breakpoints| + 1 && k <= |lines|
    requires forall i | 0 <= i < |lines| :: SplitWords(lines[i]) == LineWords(words, breakpoints, i)
    ensures Boundary(breakpoints, |words|, k) <= |words|
    ensures ReadBack(lines[..k]) == words[..Boundary(breakpoints, |words|, k)]
  {
    hide SplitWords, Breaks;
    if k > 0 {
      ReadsWords(words, breakpoints, lines, k - 1);
      BoundariesRise(breakpoints, |words|, k - 1);
      assert lines[..k][..k - 1] == lines[..k - 1];
      var from, to := Boundary(breakpoints, |words|, k - 1), Boundary(breakpoints, |words|, k);
      assert words[..from] + words[from..to] == words[..to];
    }
  }

  // ---------------------------------------------------------------- scores

  const EPSILON: real := 0.0001

  function Lengths(lines: seq<string>): seq<real> {
    seq(|lines|, i requires 0 <= i < |lines| => |lines[i]| as real)
  }

  function Sum(xs: seq<real>): real {
    if xs == [] then 0.0 else Sum(xs[..|xs| - 1]) + xs[|xs| - 1]
  }

  function Square(x: real): real { x * x }

  function Max(x: real, y: real): real { if x < y then y else x }

  function Min(x: real, y: real): real { if y < x then y else x }

  function Variance(lengths: seq<real>, mean: real): real {
    Sum(seq(|lengths|, i requires 0 <= i < |lengths| => Square(lengths[i] - mean)))
  }

  function Overflow(lengths: seq<real>, target: real): real {
    Sum(seq(|lengths|, i requires 0 <= i < |lengths| => Square(Max(0.0, lengths[i] - target)) * 3.5))
  }

  /** A last line is short when it stays below 70 % of the target and of the mean length. */
  function ShortLast(lengths: seq<real>, target: real, mean: real): real {
    if |lengths| > 1 then Square(Max(0.0, Min(target, mean) * 0.7 - lengths[|lengths| - 1])) * 6.0 else 0.0
  }

  /** Unevenness, overlong lines, a short last line, and a little for every further line. */
  function Score(lines: seq<string>, targetLineLength: int): real {
    if lines == [] then 0.0
    else
      var lengths, target := Lengths(lines), targetLineLength as real;
      var mean := Sum(lengths) / |lengths| as real;
      var variance, overflow := Variance(lengths, mean), Overflow(lengths, target);
      variance + overflow + ShortLast(lengths, target, mean) + (|lines| - 1) as real * 0.2
  }

  lemma {:induction false} SumOfNonNegatives(xs: seq<real>)
    requires forall i | 0 <= i < |xs| :: xs[i] >= 0.0
    ensures Sum(xs) >= 0.0
    ensures Sum(xs) == 0.0 <==> forall i | 0 <= i < |xs| :: xs[i] == 0.0
  {
    if xs != [] {
      var init := xs[..|xs| - 1];
      SumOfNonNegatives(init);
      assert forall i | 0 <= i < |init| :: init[i] == xs[i];
    }
  }

  lemma {:induction false} SumOfEquals(xs: seq<real>, x: real)
    requires forall i | 0 <= i < |xs| :: xs[i] == x
    ensures Sum(xs) == x * |xs| as real
  {
    if xs != [] { SumOfEquals(xs[..|xs| - 1], x); }
  }

  lemma SquareSign(x: real)
    ensures Square(x) >= 0.0 && (Square(x) == 0.0 <==> x == 0.0)
  {
    if x == 0.0 {
      assert Square(x) == 0.0;
    } else {
      SquarePositive(x);
      hide Square;
    }
  }

  lemma SquarePositive(x: real)
    requires x != 0.0
    ensures Square(x) > 0.0
  {
    calc {
      Square(x);
      x * x;
    > { if x > 0.0 { ProductPositive(x); } else { ProductOfNegatives(x); } }
      0.0;
    }
  }

  lemma ProductPositive(x: real)
    requires x > 0.0
    ensures x * x > 0.0
  {
  }

  lemma ProductOfNegatives(x: real)
    requires x < 0.0
    ensures x * x > 0.0
  {
  }

  lemma VarianceSign(lengths: seq<real>, mean: real)
    ensures Variance(lengths, mean) >= 0.0
    ensures Variance(lengths, mean) == 0.0 <==> forall i | 0 <= i < |lengths| :: lengths[i] == mean
  {
    var parts := seq(|lengths|, i requires 0 <= i < |lengths| => Square(lengths[i] - mean));
    forall i | 0 <= i < |lengths|
        ensures parts[i] >= 0.0 && (parts[i] == 0.0 <==> lengths[i] == mean) { SquareSign(lengths[i] - mean); }
    hide Square, Sum;
    SumOfNonNegatives(parts);
    assert Variance(lengths, mean) == Sum(parts);
    assert forall i | 0 <= i < |lengths| :: lengths[i] == mean <==> parts[i] == 0.0;
  }

  lemma OverflowSign(lengths: seq<real>, target: real)
    ensures Overflow(lengths, target) >= 0.0
    ensures Overflow(lengths, target) == 0.0 <==> forall i | 0 <= i < |lengths| :: lengths[i] <= target
  {
    hide Square, Sum;
    var parts := seq(|lengths|, i requires 0 <= i < |lengths| => Square(Max(0.0, lengths[i] - target)) * 3.5);
    forall i | 0 <= i < |lengths| ensures parts[i] >= 0.0 && (parts[i] == 0.0 <==> lengths[i] <= target) {
      SquareSign(Max(0.0, lengths[i] - target));
    }
    SumOfNonNegatives(parts);
    assert Overflow(lengths, target) == Sum(parts);
    assert forall i | 0 <= i < |lengths| :: lengths[i] <= target <==> parts[i] == 0.0;
  }

  /** Lines of one length, none over the target. */
  predicate EvenWithin(lines: seq<string>, targetLineLength: int) {
    forall i | 0 <= i < |lines| :: |lines[i]| == |lines[0]| && |lines[i]| <= targetLineLength
  }

  /** The score never goes below its charge for the number of lines, and reaches it exactly for lines of one
      length within the target. */
  lemma ScoreFloor(lines: seq<string>, targetLineLength: int)
    requires lines != []
    ensures Score(lines, targetLineLength) >= (|lines| - 1) as real * 0.2
    ensures Score(lines, targetLineLength) == (|lines| - 1) as real * 0.2 <==> EvenWithin(lines, targetLineLength)
  {
    hide Variance, Overflow, Square, Sum;
    var lengths, target := Lengths(lines), targetLineLength as real;
    var mean := Sum(lengths) / |lengths| as real;
    VarianceSign(lengths, mean);
    OverflowSign(lengths, target);
    SquareSign(Max(0.0, Min(target, mean) * 0.7 - lengths[|lengths| - 1]));
    if EvenWithin(lines, targetLineLength) { MeanOfEven(lengths, lengths[0]); }
    assert forall i | 0 <= i < |lines| :: lengths[i] == |lines[i]| as real;
  }

  function LongestLine(lines: seq<string>): nat {
    if lines == [] then 0
    else
      var rest, last := LongestLine(lines[..|lines| - 1]), |lines[|lines| - 1]|;
      if rest < last then last else rest
  }

  function LastLine(lines: seq<string>): nat {
    if lines == [] then 0 else |lines[|lines| - 1]|
  }

  function MeanLength(lines: seq<string>): real
    requires lines != []
  {
    Sum(Lengths(lines)) / |lines| as real
  }

  /** What a short last line costs: nothing exactly from 70 % of the smaller of target and mean on, and more the further
      it falls short. The score never goes below this charge and the one for the number of lines. */
  lemma LastLineCharge(lines: seq<string>, targetLineLength: int)
    requires |lines| > 1
    ensures var wanted := 0.7 * if MeanLength(lines) < targetLineLength as real then MeanLength(lines)
                                else targetLineLength as real;
            var charge := ShortLast(Lengths(lines), targetLineLength as real, MeanLength(lines));
            && charge >= 0.0 && (charge == 0.0 <==> LastLine(lines) as real >= wanted)
            && (charge > 0.0 ==> charge == 6.0 * Square(wanted - LastLine(lines) as real))
            && Score(lines, targetLineLength) >= charge + (|lines| - 1) as real * 0.2
  {
    hide Variance, Overflow, Square, Sum;
    var lengths, target := Lengths(lines), targetLineLength as real;
    VarianceSign(lengths, MeanLength(lines));
    OverflowSign(lengths, target);
    SquareSign(Max(0.0, Min(target, MeanLength(lines)) * 0.7 - lengths[|lengths| - 1]));
  }

  lemma ShortfallCosts(less: real, more: real)
    requires 0.0 <= less < more
    ensures Square(less) < Square(more)
  {
    assert more * more - less * less == (more - less) * (more + less);
    PositiveProduct(more - less, more + less);
  }

  lemma PositiveProduct(x: real, y: real)
    requires x > 0.0 && y > 0.0
    ensures x * y > 0.0
  {
  }

  lemma MeanOfEven(lengths: seq<real>, length: real)
    requires lengths != [] && forall i | 0 <= i < |lengths| :: lengths[i] == length
    ensures Sum(lengths) / |lengths| as real == length
  {
    hide Sum;
    SumOfEquals(lengths, length);
  }

  /** The tie-break: shorter longest line, then more lines, then a longer last line. */
  predicate Prefers(lhs: seq<string>, rhs: seq<string>) {
    if LongestLine(lhs) != LongestLine(rhs) then LongestLine(lhs) < LongestLine(rhs)
    else if |lhs| != |rhs| then |lhs| > |rhs|
    else LastLine(lhs) > LastLine(rhs)
  }

  /** The tie-break is a strict weak order: ties are transitive too. */
  lemma PrefersStrictWeakOrder(a: seq<string>, b: seq<string>, c: seq<string>)
    ensures !Prefers(a, a)
    ensures Prefers(a, b) && Prefers(b, c) ==> Prefers(a, c)
    ensures !Prefers(a, b) && !Prefers(b, c) ==> !Prefers(a, c)
  {
  }

  // ---------------------------------------------------------------- the choice

  /** When a candidate replaces the best so far: clearly better, or as good and preferred. */
  predicate Beats(lines: seq<string>, best: seq<string>, target: int) {
    var score, bestScore := Score(lines, target), Score(best, target);
    score < bestScore - EPSILON || (-EPSILON <= score - bestScore <= EPSILON && Prefers(lines, best))
  }

  function Best(first: seq<string>, candidates: seq<seq<string>>, target: int): seq<string> {
    if candidates == [] then first
    else
      var best, last := Best(first, candidates[..|candidates| - 1], target), candidates[|candidates| - 1];
      if Beats(last, best, target) then last else best
  }

  function Layouts(words: seq<string>, choices: seq<seq<nat>>): seq<seq<string>>
    requires forall c <- choices :: Breaks(c, |words|)
  {
    seq(|choices|, i requires 0 <= i < |choices| => Layout(words, choices[i]))
  }

  lemma ChoicesBreak(n: nat, size: nat)
    requires n > 0
    ensures forall c <- Choices(1, n, size) :: Breaks(c, n) && |c| == size
  {
    forall c <- Choices(1, n, size) ensures Breaks(c, n) && |c| == size { ChoicesExact(c, 1, n, size); }
  }

  /** All layouts of at most `allowed` lines, fewest lines first. */
  function Candidates(words: seq<string>, allowed: nat): seq<seq<string>>
    requires words != []
  {
    if allowed == 0 then []
    else
      ChoicesBreak(|words|, allowed - 1);
      Candidates(words, allowed - 1) + Layouts(words, Choices(1, |words|, allowed - 1))
  }

  predicate IsLayout(words: seq<string>, breakpoints: seq<nat>, lines: seq<string>) {
    Breaks(breakpoints, |words|) && lines == Layout(words, breakpoints)
  }

  lemma LayoutsExact(words: seq<string>, size: nat, lines: seq<string>)
    requires words != []
    ensures (forall c <- Choices(1, |words|, size) :: Breaks(c, |words|)) &&
            (lines in Layouts(words, Choices(1, |words|, size)) <==>
             exists b: seq<nat> :: IsLayout(words, b, lines) && |b| == size)
  {
    hide Choices, Layout, Breaks;
    ChoicesBreak(|words|, size);
    var choices := Choices(1, |words|, size);
    var layouts := Layouts(words, choices);
    if lines in layouts {
      var i :| 0 <= i < |layouts| && lines == layouts[i];
      assert choices[i] in choices && IsLayout(words, choices[i], lines);
    }
    forall b: seq<nat> | IsLayout(words, b, lines) && |b| == size ensures lines in layouts {
      ListsLayout(words, size, b);
      var i :| 0 <= i < |choices| && choices[i] == b;
      assert layouts[i] == lines;
    }
  }

  lemma ListsLayout(words: seq<string>, size: nat, b: seq<nat>)
    requires Breaks(b, |words|) && |b| == size
    ensures b in Choices(1, |words|, size)
  {
    ChoicesExact(b, 1, |words|, size);
  }

  lemma CandidatesStep(words: seq<string>, allowed: nat, lines: seq<string>)
    requires words != [] && allowed > 0
    ensures forall c <- Choices(1, |words|, allowed - 1) :: Breaks(c, |words|)
    ensures lines in Candidates(words, allowed) <==>
            lines in Candidates(words, allowed - 1) || lines in Layouts(words, Choices(1, |words|, allowed - 1))
  {
    hide Layouts, Choices, Breaks;
    ChoicesBreak(|words|, allowed - 1);
  }

  /** Every way to break the words into at most `allowed` lines is a candidate, and nothing else is. */
  lemma {:induction false} CandidatesExact(words: seq<string>, allowed: nat, lines: seq<string>)
    requires words != []
    ensures lines in Candidates(words, allowed) <==> exists b: seq<nat> :: IsLayout(words, b, lines) && |b| < allowed
  {
    hide Layouts, Choices, IsLayout, Layout, Breaks, IsChoice;
    if allowed > 0 {
      CandidatesExact(words, allowed - 1, lines);
      LayoutsExact(words, allowed - 1, lines);
      CandidatesStep(words, allowed, lines);
    }
  }

  /** How many layouts are tried: a sum of binomial coefficients. */
  function Tried(n: nat, allowed: nat): nat
    requires n > 0
  {
    if allowed == 0 then 0 else Tried(n, allowed - 1) + Binomial(n - 1, allowed - 1)
  }

  lemma {:induction false} CandidatesCount(words: seq<string>, allowed: nat)
    requires words != []
    ensures |Candidates(words, allowed)| == Tried(|words|, allowed)
  {
    if allowed > 0 {
      hide Choices, Layout, Candidates;
      CandidatesCount(words, allowed - 1);
      AllTried(words, allowed);
      ChoicesCount(1, |words|, allowed - 1);
    }
  }

  /** Each step may lose EPSILON, never more. */
  lemma {:induction false} BestNearOptimal(first: seq<string>, candidates: seq<seq<string>>, target: int, i: nat)
    requires i < |candidates|
    ensures Score(Best(first, candidates, target), target)
            <= Score(candidates[i], target) + EPSILON * (|candidates| - i) as real
  {
    hide Score, Prefers;
    if i < |candidates| - 1 { BestNearOptimal(first, candidates[..|candidates| - 1], target, i); }
  }

  /** Scores that are equal or clearly apart. */
  predicate WellSeparated(candidates: seq<seq<string>>, target: int) {
    forall c, d | c in candidates && d in candidates :: var diff := Score(c, target) - Score(d, target);
      diff == 0.0 || diff < -EPSILON || diff > EPSILON
  }

  /** Then the choice is a true minimum, and nothing of the same score is preferred to it. */
  lemma {:induction false} BestExact(first: seq<string>, candidates: seq<seq<string>>, target: int)
    requires WellSeparated([first] + candidates, target)
    ensures var best := Best(first, candidates, target);
            best in [first] + candidates
            && forall c <- [first] + candidates ::
                 Score(best, target) < Score(c, target)
                     || (Score(best, target) == Score(c, target) && !Prefers(c, best))
  {
    hide Score, Prefers;
    if candidates == [] {
      PrefersStrictWeakOrder(first, first, first);
    } else {
      var init, last := candidates[..|candidates| - 1], candidates[|candidates| - 1];
      assert candidates == init + [last];
      BestExact(first, init, target);
      var best := Best(first, init, target);
      PrefersStrictWeakOrder(last, last, last);
      forall c <- [first] + init { PrefersStrictWeakOrder(c, last, best); }
    }
  }

  lemma {:induction false} BestAmong(first: seq<string>, candidates: seq<seq<string>>, target: int)
    ensures Best(first, candidates, target) in [first] + candidates
  {
    hide Score, Prefers;
    if candidates != [] { BestAmong(first, candidates[..|candidates| - 1], target); }
  }

  function Allowed(words: seq<string>, maxLines: int): nat
    requires words != []
  {
    var most := if maxLines < |words| then maxLines else |words|;
    if most < 1 then 1 else most
  }

  /** The words in order on at most the allowed number of non-empty lines. */
  predicate Reads(lines: seq<string>, words: seq<string>, maxLines: int)
    requires words != []
  {
    1 <= |lines| <= Allowed(words, maxLines) && (forall line <- lines :: line != "") && ReadBack(lines) == words
  }

  /** A score within EPSILON per candidate of the other layout's; exact when scores are clearly apart. */
  predicate Rivals(lines: seq<string>, other: seq<string>, candidates: seq<seq<string>>, target: int) {
    && Score(lines, target) <= Score(other, target) + EPSILON * |candidates| as real
    && (WellSeparated(candidates, target) ==>
          || Score(lines, target) < Score(other, target)
          || (Score(lines, target) == Score(other, target) && WinsTie(lines, other)))
  }

  /** Among layouts of one score the longest line is shortest, then there are the most lines, then the last line is
      longest. */
  predicate WinsTie(lines: seq<string>, other: seq<string>) {
    || LongestLine(lines) < LongestLine(other)
    || (LongestLine(lines) == LongestLine(other) && |lines| > |other|)
    || (LongestLine(lines) == LongestLine(other) && |lines| == |other| && LastLine(lines) >= LastLine(other))
  }

  lemma UnbeatenWins(lines: seq<string>, other: seq<string>)
    ensures !Prefers(other, lines) <==> WinsTie(lines, other)
  {
  }

  lemma {:induction false} LongestMeaning(lines: seq<string>)
    ensures forall line <- lines :: |line| <= LongestLine(lines)
    ensures lines != [] ==> exists line <- lines :: |line| == LongestLine(lines)
  {
    if lines != [] {
      var init, last := lines[..|lines| - 1], lines[|lines| - 1];
      LongestMeaning(init);
      assert last in lines && forall line <- init :: line in lines;
    }
  }

  /** What a headline promises for a text: it reads back as the text's words, and no layout of them within the line
      limit is better by more than the tolerance. */
  ghost predicate GoodHeadline(lines: seq<string>, text: string, maxLines: int, target: int) {
    var words := SplitWords(text);
    if words == [] then lines == [""]
    else
      && Reads(lines, words, maxLines)
      && forall b: seq<nat> | Breaks(b, |words|) && |b| < Allowed(words, maxLines) ::
           Rivals(lines, Layout(words, b), Candidates(words, Allowed(words, maxLines)), target)
  }

  function Headline(text: string, maxLines: int, target: int): seq<string> {
    var words := SplitWords(text);
    if words == [] then [""] else Best([Join(words)], Candidates(words, Allowed(words, maxLines)), target)
  }

  lemma HeadlineGuarantee(text: string, maxLines: int, target: int)
    ensures GoodHeadline(Headline(text, maxLines, target), text, maxLines, target)
  {
    hide Reads, Rivals, Best, Candidates, Layout, Breaks, Allowed;
    var words := SplitWords(text);
    if words != [] {
      SplitsIntoWords(text);
      NoBreaks(words, maxLines);
      forall b: seq<nat> | Breaks(b, |words|) && |b| < Allowed(words, maxLines)
        ensures Rivals(Headline(text, maxLines, target), Layout(words, b),
                       Candidates(words, Allowed(words, maxLines)), target)
      {
        WordsGuarantee(words, maxLines, target, b);
      }
      WordsGuarantee(words, maxLines, target, []);
    }
  }

  lemma NoBreaks(words: seq<string>, maxLines: int)
    requires words != []
    ensures Breaks([], |words|) && Allowed(words, maxLines) > 0
  {
  }

  lemma WordsGuarantee(words: seq<string>, maxLines: int, target: int, b: seq<nat>)
    requires words != [] && (forall w <- words :: IsWord(w)) && Breaks(b, |words|) && |b| < Allowed(words, maxLines)
    ensures var candidates := Candidates(words, Allowed(words, maxLines));
            var lines := Best([Join(words)], candidates, target);
            Reads(lines, words, maxLines) && Rivals(lines, Layout(words, b), candidates, target)
  {
    hide Candidates, Best, Score, Prefers, Layout, Breaks, Allowed;
    var allowed := Allowed(words, maxLines);
    var candidates, first := Candidates(words, allowed), [Join(words)];
    var lines := Best(first, candidates, target);
    OneLine(words);
    CandidatesExact(words, allowed, first);
    CandidatesExact(words, allowed, lines);
    CandidatesExact(words, allowed, Layout(words, b));
    BestAmong(first, candidates, target);
    assert IsLayout(words, [], first) && IsLayout(words, b, Layout(words, b));
    var chosen: seq<nat> :| IsLayout(words, chosen, lines) && |chosen| < allowed;
    LayoutKeepsWords(words, chosen);
    var i :| 0 <= i < |candidates| && candidates[i] == Layout(words, b);
    BestNearOptimal(first, candidates, target, i);
    Scaled((|candidates| - i) as real, |candidates| as real);
    if WellSeparated(candidates, target) {
      assert forall c <- [first] + candidates :: c in candidates;
      BestExact(first, candidates, target);
      UnbeatenWins(lines, Layout(words, b));
    }
  }

  lemma Scaled(x: real, y: real)
    requires x <= y
    ensures EPSILON * x <= EPSILON * y
  {
  }

  lemma OneLine(words: seq<string>)
    requires words != []
    ensures IsLayout(words, [], [Join(words)])
  {
    assert words[0..|words|] == words;
    assert Layout(words, [])[0] == Join(words);
  }

  lemma BestStep(first: seq<string>, before: seq<seq<string>>, layouts: seq<seq<string>>, i: nat, target: int)
    requires i < |layouts|
    ensures var best := Best(first, before + layouts[..i], target);
            Best(first, before + layouts[..i + 1], target) == if Beats(layouts[i], best, target) then layouts[i]
                else best
  {
    assert before + layouts[..i + 1] == before + layouts[..i] + [layouts[i]];
    assert (before + layouts[..i] + [layouts[i]])[..|before + layouts[..i]|] == before + layouts[..i];
  }

  /** Two words that would fit on two lines stay on one that is too long, because the second would be a short one. */
  lemma ShortLineAvoided()
    ensures Score(["development done"], 13) == 31.5 && Score(["development", "done"], 13) == 34.075
    ensures Headline("development done", 3, 13) == ["development done"]
  {
    hide Score, SplitWords, Candidates, Layout, Best, Breaks, Join, Rivals, Prefers, IsLayout, LongestLine, LastLine,
         WellSeparated, ReadBack;
    var words := ["development", "done"];
    OneLength("development done", 13);
    TwoLengths("development", "done", 13);
    SplitOfTwo();
    TwoLayouts("development", "done");
    HeadlineGuarantee("development done", 3, 13);
    var candidates, lines := Candidates(words, 2), Headline("development done", 3, 13);
    assert Allowed(words, 3) == 2;
    BestAmong([Join(words)], candidates, 13);
    OneLine(words);
    CandidatesExact(words, 2, [Join(words)]);
    CandidatesExact(words, 2, lines);
    CandidatesOfTwo("development", "done");
    assert Rivals(lines, Layout(words, []), candidates, 13);
    RivalScore(lines, Layout(words, []), candidates, 13);
    ChosenLayout(words, lines);
    assert "development" + " " + "done" == "development done";
    var b: seq<nat> :| Breaks(b, 2) && |b| < 2 && lines == Layout(words, b);
    assert Layout(words, b) == words || b == [];
  }

  lemma RivalScore(lines: seq<string>, other: seq<string>, candidates: seq<seq<string>>, target: int)
    requires Rivals(lines, other, candidates, target) && |candidates| == 2
    ensures Score(lines, target) <= Score(other, target) + 2.0 * EPSILON
  {
    hide Score, WellSeparated;
  }

  lemma ChosenLayout(words: seq<string>, lines: seq<string>)
    requires words != [] && exists b: seq<nat> :: IsLayout(words, b, lines) && |b| < 2
    ensures exists b: seq<nat> :: Breaks(b, |words|) && |b| < 2 && lines == Layout(words, b)
  {
    hide Breaks, Layout;
    var b: seq<nat> :| IsLayout(words, b, lines) && |b| < 2;
    assert lines == Layout(words, b);
  }

  lemma OneLength(line: string, target: int)
    requires |line| == 16 && target == 13
    ensures Score([line], target) == 31.5
  {
    var lengths := Lengths([line]);
    assert lengths == [16.0] && lengths[..0] == [];
    assert Sum(lengths) == 16.0;
    var v := seq(1, i requires 0 <= i < 1 => Square(lengths[i] - 16.0));
    assert v == [0.0] && v[..0] == [];
    var o := seq(1, i requires 0 <= i < 1 => Square(Max(0.0, lengths[i] - 13.0)) * 3.5);
    assert o == [31.5] && o[..0] == [];
  }

  lemma TwoLengths(first: string, second: string, target: int)
    requires |first| == 11 && |second| == 4 && target == 13
    ensures Score([first, second], target) == 34.075
  {
    var lengths := Lengths([first, second]);
    assert lengths == [11.0, 4.0];
    SumOfTwo(11.0, 4.0);
    var v := seq(2, i requires 0 <= i < 2 => Square(lengths[i] - 7.5));
    assert v == [12.25, 12.25];
    SumOfTwo(12.25, 12.25);
    var o := seq(2, i requires 0 <= i < 2 => Square(Max(0.0, lengths[i] - 13.0)) * 3.5);
    assert o == [0.0, 0.0];
    SumOfTwo(0.0, 0.0);
  }

  lemma SumOfTwo(x: real, y: real)
    ensures Sum([x, y]) == x + y
  {
    assert [x, y][..1] == [x] && [x][..0] == [];
    assert Sum([x]) == Sum([x][..0]) + x;
  }

  lemma SplitOfTwo()
    ensures SplitWords("development done") == ["development", "done"]
  {
    assert "development" + " " + "done" == "development done";
    assert IsWord("development") && IsWord("done");
    SplitConcat("development", "done");
    SplitWord("development");
    SplitWord("done");
  }

  lemma TwoLayouts(first: string, second: string)
    ensures var words := [first, second];
            && Join(words) == first + " " + second && Breaks([], 2) && Layout(words, []) == [Join(words)]
            && forall b: seq<nat> | Breaks(b, 2) && |b| < 2 ::
                 (b == [] && Layout(words, b) == [Join(words)]) || Layout(words, b) == words
  {
    var words := [first, second];
    OneLine(words);
    assert words[..1] == [first];
    forall b: seq<nat> | Breaks(b, 2) && |b| < 2
      ensures (b == [] && Layout(words, b) == [Join(words)]) || Layout(words, b) == words
    {
      if b != [] {
        assert b == [1];
        assert LineWords(words, b, 0) == [first] && LineWords(words, b, 1) == [second];
      }
    }
  }

  lemma CandidatesOfTwo(first: string, second: string)
    ensures |Candidates([first, second], 2)| == 2
  {
    CandidatesCount([first, second], 2);
  }

  method BalancedHeadlineLines(text: string, maxLines: int, targetLineLength: int) returns (bestLines: seq<string>)
    ensures bestLines == Headline(text, maxLines, targetLineLength)
    ensures GoodHeadline(bestLines, text, maxLines, targetLineLength)
  {
    hide GoodHeadline, Score, Prefers, Best, SplitWords, Layout;
    HeadlineGuarantee(text, maxLines, targetLineLength);
    var words := SplitWords(text);
    if words == [] { return [""]; }
    var allowedLines := Allowed(words, maxLines);
    bestLines := [Join(words)];
    ghost var first := bestLines;
    NoCandidates(first, targetLineLength);
    var bestScore := Score(bestLines, targetLineLength);
    for lineCount := 1 to allowedLines + 1
      invariant bestLines == Best(first, Candidates(words, lineCount - 1), targetLineLength)
      invariant bestScore == Score(bestLines, targetLineLength)
    {
      bestLines, bestScore := TryLineCount(words, lineCount, targetLineLength, first, bestLines, bestScore);
    }
  }

  lemma NoCandidates(first: seq<string>, target: int)
    ensures Best(first, [], target) == first
  {
  }

  /** The inner loop: every layout with this many lines. */
  method TryLineCount(words: seq<string>, lineCount: nat, target: int, ghost first: seq<string>, lines: seq<string>,
      score: real)
    returns (bestLines: seq<string>, bestScore: real)
    requires words != [] && lineCount > 0
    requires lines == Best(first, Candidates(words, lineCount - 1), target) && score == Score(lines, target)
    ensures bestLines == Best(first, Candidates(words, lineCount), target) && bestScore == Score(bestLines, target)
  {
    hide Candidates, Best, Score, Prefers, Layout, Choices, Breaks, Beats, IsChoice;
    bestLines, bestScore := lines, score;
    var choices := CandidateBreakpoints(|words|, lineCount);
    ChoicesBreak(|words|, lineCount - 1);
    ghost var before, layouts := Candidates(words, lineCount - 1), Layouts(words, choices);
    assert before + layouts[..0] == before;
    for i := 0 to |choices|
      invariant bestLines == Best(first, before + layouts[..i], target) && bestScore == Score(bestLines, target)
    {
      assert choices[i] in choices;
      var candidate := BuildHeadlineLines(words, choices[i]);
      BestStep(first, before, layouts, i, target);
      bestLines, bestScore := Consider(candidate, bestLines, bestScore, target);
    }
    assert layouts[..|choices|] == layouts;
    AllTried(words, lineCount);
  }

  lemma AllTried(words: seq<string>, lineCount: nat)
    requires words != [] && lineCount > 0
    ensures forall c <- Choices(1, |words|, lineCount - 1) :: Breaks(c, |words|)
    ensures Candidates(words, lineCount)
            == Candidates(words, lineCount - 1) + Layouts(words, Choices(1, |words|, lineCount - 1))
  {
    hide Choices, Layouts, Breaks;
    ChoicesBreak(|words|, lineCount - 1);
  }

  /** A score lower by more than a ten-thousandth wins, one higher by more loses, and anything between goes by the
      tie-break alone. */
  predicate ReplacesRightly(candidate: seq<string>, lines: seq<string>, chosen: seq<string>, target: int) {
    var gain := Score(lines, target) - Score(candidate, target);
    if gain > 0.0001 then chosen == candidate
    else if gain < -0.0001 then chosen == lines
    else chosen == if WinsTie(lines, candidate) then lines else candidate
  }

  lemma BeatsRightly(candidate: seq<string>, lines: seq<string>, target: int)
    ensures ReplacesRightly(candidate, lines, if Beats(candidate, lines, target) then candidate else lines, target)
  {
    hide Score, LongestLine, LastLine;
    UnbeatenWins(lines, candidate);
  }

  method Consider(candidate: seq<string>, lines: seq<string>, score: real, target: int)
      returns (bestLines: seq<string>, bestScore: real)
    requires score == Score(lines, target)
    ensures bestLines == (if Beats(candidate, lines, target) then candidate else lines)
            && bestScore == Score(bestLines, target)
    ensures ReplacesRightly(candidate, lines, bestLines, target)
  {
    hide Score, Prefers;
    BeatsRightly(candidate, lines, target);
    var candidateScore := Score(candidate, target);
    var closeness := candidateScore - score;
    if candidateScore < score - EPSILON || (-EPSILON <= closeness <= EPSILON && Prefers(candidate, lines)) {
      return candidate, candidateScore;
    }
    return lines, score;
  }
}
