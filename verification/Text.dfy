/** The string helpers the relay and the installer lean on: trimming, lower-casing, substring search. */
module Text {

  /** Unicode White_Space, as Go's strings.TrimSpace uses it. */
  predicate IsSpace(c: char) {
    c == ' ' || '\t' <= c <= '\r' || c == '\U{85}' || c == '\U{A0}' || c == '\U{1680}'
    || '\U{2000}' <= c <= '\U{200A}' || c == '\U{2028}' || c == '\U{2029}' || c == '\U{202F}'
    || c == '\U{205F}' || c == '\U{3000}'
  }

  function TrimStart(s: string): string {
    if s != "" && IsSpace(s[0]) then TrimStart(s[1..]) else s
  }

  function TrimEnd(s: string): string {
    if s != "" && IsSpace(s[|s| - 1]) then TrimEnd(s[..|s| - 1]) else s
  }

  function Trim(s: string): string {
    TrimEnd(TrimStart(s))
  }

  predicate Trimmed(s: string) {
    s != "" ==> !IsSpace(s[0]) && !IsSpace(s[|s| - 1])
  }

  lemma {:induction false} TrimStartStops(s: string)
    ensures TrimStart(s) != "" ==> !IsSpace(TrimStart(s)[0])
  {
    if s != "" && IsSpace(s[0]) { TrimStartStops(s[1..]); }
  }

  lemma {:induction false} TrimEndStops(s: string)
    requires s != "" ==> !IsSpace(s[0])
    ensures Trimmed(TrimEnd(s))
  {
    if s != "" && IsSpace(s[|s| - 1]) { TrimEndStops(s[..|s| - 1]); }
  }

  /** Trimming leaves exactly the trimmed strings alone, and always yields one. */
  lemma TrimFixpoint(s: string)
    ensures Trimmed(Trim(s))
    ensures Trim(s) == s <==> Trimmed(s)
    ensures Trim(Trim(s)) == Trim(s)
  {
    TrimStartStops(s);
    TrimEndStops(TrimStart(s));
  }

  /** Simple lower-casing, exact wherever the result is an ASCII letter: besides A-Z only the
      Kelvin sign and the dotted capital I lower to one. */
  function LowerChar(c: char): char {
    if 'A' <= c <= 'Z' then (c as int + 32) as char
    else if c == '\U{212A}' then 'k'
    else if c == '\U{130}' then 'i'
    else c
  }

  function Lower(s: string): string {
    seq(|s|, i requires 0 <= i < |s| => LowerChar(s[i]))
  }

  predicate OccursAt(s: string, sub: string, i: int) {
    0 <= i <= |s| - |sub| && s[i..i + |sub|] == sub
  }

  predicate Contains(s: string, sub: string) {
    exists i | 0 <= i <= |s| :: OccursAt(s, sub, i)
  }

  /** A lower-case marker inside a string survives lower-casing of the whole. */
  lemma LowerKeepsMarker(before: string, marker: string, after: string)
    requires Lower(marker) == marker
    ensures Contains(Lower(before + marker + after), marker)
  {
    var low := Lower(before + marker + after);
    assert low[|before|..|before| + |marker|] == Lower(marker);
    assert OccursAt(low, marker, |before|);
  }

  /** `c` is the letter in either case. Two letters outside ASCII lower to an ASCII one as well. */
  predicate CaseOf(c: char, low: char) {
    c == low || ('A' <= c <= 'Z' && 'a' <= low <= 'z' && c as int - 'A' as int == low as int - 'a' as int)
    || (c == '\U{212A}' && low == 'k') || (c == '\U{130}' && low == 'i')
  }

  predicate WrittenAt(s: string, word: string, i: int) {
    0 <= i <= |s| - |word| && forall k | 0 <= k < |word| :: CaseOf(s[i + k], word[k])
  }

  /** The word is somewhere in the text, in any letter case. */
  predicate Spells(s: string, word: string) {
    exists i | 0 <= i <= |s| :: WrittenAt(s, word, i)
  }

  /** Looking for a lower-case word in the lower-cased text finds it in any letter case, and nothing else. */
  lemma SpellsMeaning(s: string, word: string)
    requires forall c <- word :: !('A' <= c <= 'Z') && c != '\U{212A}' && c != '\U{130}'
    ensures Contains(Lower(s), word) <==> Spells(s, word)
  {
    forall i ensures OccursAt(Lower(s), word, i) <==> WrittenAt(s, word, i) { OccursWritten(s, word, i); }
  }

  lemma OccursWritten(s: string, word: string, i: int)
    requires forall c <- word :: !('A' <= c <= 'Z') && c != '\U{212A}' && c != '\U{130}'
    ensures OccursAt(Lower(s), word, i) <==> WrittenAt(s, word, i)
  {
    if 0 <= i <= |s| - |word| {
      var part := Lower(s)[i..i + |word|];
      forall k | 0 <= k < |word| ensures part[k] == word[k] <==> CaseOf(s[i + k], word[k]) {
        assert word[k] in word && part[k] == LowerChar(s[i + k]);
      }
      assert part == word <==> forall k | 0 <= k < |word| :: part[k] == word[k];
    }
  }

  /** Trimming takes the white space off both ends and nothing else. */
  lemma TrimMeaning(s: string)
    ensures exists i, j | 0 <= i <= j <= |s| :: Trim(s) == s[i..j] && AllSpace(s[..i]) && AllSpace(s[j..])
    ensures Trimmed(Trim(s))
  {
    TrimFixpoint(s);
    var i := TrimStartMeaning(s);
    var j := TrimEndMeaning(s[i..]);
    assert Trim(s) == s[i..][..j] == s[i..i + j] && s[i..][j..] == s[i + j..];
  }

  predicate AllSpace(s: string) {
    forall c <- s :: IsSpace(c)
  }

  lemma {:induction false} TrimStartMeaning(s: string) returns (i: nat)
    ensures i <= |s| && TrimStart(s) == s[i..] && AllSpace(s[..i])
  {
    i := 0;
    if s != "" && IsSpace(s[0]) {
      i := TrimStartMeaning(s[1..]);
      assert s[..i + 1] == [s[0]] + s[1..][..i];
      i := i + 1;
    }
  }

  lemma {:induction false} TrimEndMeaning(s: string) returns (j: nat)
    ensures j <= |s| && TrimEnd(s) == s[..j] && AllSpace(s[j..])
  {
    j := |s|;
    if s != "" && IsSpace(s[|s| - 1]) {
      j := TrimEndMeaning(s[..|s| - 1]);
      assert s[j..] == s[..|s| - 1][j..] + [s[|s| - 1]];
      assert s[..|s| - 1][..j] == s[..j];
    }
  }
}
