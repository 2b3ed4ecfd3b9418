/**
 * The string primitives the screens rely on: Kotlin's `isBlank`/`trim`
 * and Java's `String.CASE_INSENSITIVE_ORDER`, at the ASCII level.
 */
module Text {

  /** Kotlin's `Char.isWhitespace` on ASCII: the controls U+0009..U+000D,
      the separators U+001C..U+001F and the space. */
  predicate IsWhitespace(c: char) {
    9 <= c as int <= 13 || 28 <= c as int <= 32
  }

  /** `isBlank()`: empty, or whitespace only. */
  predicate IsBlank(s: string) {
    forall i :: 0 <= i < |s| ==> IsWhitespace(s[i])
  }

  /** Neither end of `s` is whitespace (an empty string qualifies). */
  predicate IsTrimmed(s: string) {
    s == [] || (!IsWhitespace(s[0]) && !IsWhitespace(s[|s| - 1]))
  }

  /** `r` is what remains of `s` once its whitespace prefix and suffix are cut off. */
  ghost predicate IsTrimOf(r: string, s: string) {
    IsTrimmed(r) &&
    exists i, j :: 0 <= i <= j <= |s| && r == s[i..j] && IsBlank(s[..i]) && IsBlank(s[j..])
  }

  /** The number of whitespace characters `s` starts with. */
  function LeadingBlanks(s: string): (n: nat)
    ensures n <= |s| && IsBlank(s[..n])
    ensures n < |s| ==> !IsWhitespace(s[n])
  {
    if s == [] || !IsWhitespace(s[0]) then 0
    else
      var m := LeadingBlanks(s[1..]);
      assert s[..m + 1] == [s[0]] + s[1..][..m];
      m + 1
  }

  /** The number of whitespace characters `s` ends with. */
  function TrailingBlanks(s: string): (n: nat)
    ensures n <= |s| && IsBlank(s[|s| - n..])
    ensures n < |s| ==> !IsWhitespace(s[|s| - n - 1])
  {
    if s == [] || !IsWhitespace(s[|s| - 1]) then 0
    else
      var m := TrailingBlanks(s[..|s| - 1]);
      TrailingStep(s, m);
      m + 1
  }

  /** A blank suffix of all but the last character grows by a whitespace last character. */
  lemma TrailingStep(s: string, m: nat)
    requires s != [] && IsWhitespace(s[|s| - 1]) && m < |s|
    requires IsBlank(s[..|s| - 1][|s| - 1 - m..])
    requires m < |s| - 1 ==> !IsWhitespace(s[..|s| - 1][|s| - 1 - m - 1])
    ensures IsBlank(s[|s| - (m + 1)..])
    ensures m + 1 < |s| ==> !IsWhitespace(s[|s| - (m + 1) - 1])
  {
    var suffix, shorter := s[|s| - (m + 1)..], s[..|s| - 1][|s| - 1 - m..];
    forall i | 0 <= i < |suffix| ensures IsWhitespace(suffix[i]) {
      if i < m {
        assert suffix[i] == shorter[i];
      }
    }
    if m + 1 < |s| {
      assert s[|s| - (m + 1) - 1] == s[..|s| - 1][|s| - 1 - m - 1];
    }
  }

  /** Kotlin's `trim()`: the whitespace prefix and suffix removed. */
  function Trim(s: string): (r: string)
    ensures IsTrimOf(r, s)
    ensures r == [] <==> IsBlank(s)
  {
    var i := LeadingBlanks(s);
    var j := |s| - TrailingBlanks(s[i..]);
    assert s[j..] == s[i..][j - i..];
    BlankSplit(s, i, j);
    s[i..j]
  }

  /** A string whose outer parts are blank is blank exactly when its middle is. */
  lemma BlankSplit(s: string, i: nat, j: nat)
    requires i <= j <= |s| && IsBlank(s[..i]) && IsBlank(s[j..])
    ensures IsBlank(s) <==> IsBlank(s[i..j])
  {
    if IsBlank(s[i..j]) {
      forall k | 0 <= k < |s| ensures IsWhitespace(s[k]) {
        if k < i { assert s[k] == s[..i][k]; }
        else if k < j { assert s[k] == s[i..j][k - i]; }
        else { assert s[k] == s[j..][k - j]; }
      }
    }
  }

  /** The case folding `CASE_INSENSITIVE_ORDER` applies to one character:
      upper-case then lower-case, which on ASCII maps 'A'..'Z' to 'a'..'z'. */
  function FoldCase(c: char): char {
    if 'A' <= c <= 'Z' then (c as int + 32) as char else c
  }

  /** `equalsIgnoreCase`: the same length and the same folded characters. */
  predicate EqualsIgnoreCase(a: string, b: string) {
    |a| == |b| && forall i :: 0 <= i < |a| ==> FoldCase(a[i]) == FoldCase(b[i])
  }

  /**
   * `String.CASE_INSENSITIVE_ORDER.compare(a, b)`: at the first position
   * where the folded characters differ, their difference; when one string
   * is a prefix of the other (ignoring case), the difference of the lengths.
   * Positions here are Unicode scalar values, whereas the runtime walks
   * UTF-16 code units: a character above U+FFFF counts there as its high
   * surrogate (U+D800..U+DBFF), below U+E000..U+FFFF, and here as itself,
   * above them.
   */
  function Compare(a: string, b: string): (r: int)
    ensures r == 0 <==> EqualsIgnoreCase(a, b)
  {
    if a == [] || b == [] then |a| - |b|
    else if FoldCase(a[0]) != FoldCase(b[0]) then
      assert !EqualsIgnoreCase(a, b) by { assert FoldCase(a[0]) != FoldCase(b[0]); }
      FoldCase(a[0]) as int - FoldCase(b[0]) as int
    else
      EqualsIgnoreCaseTail(a, b);
      Compare(a[1..], b[1..])
  }

  /** Past equal first characters, equality ignoring case is decided by the tails. */
  lemma EqualsIgnoreCaseTail(a: string, b: string)
    requires a != [] && b != [] && FoldCase(a[0]) == FoldCase(b[0])
    ensures EqualsIgnoreCase(a, b) <==> EqualsIgnoreCase(a[1..], b[1..])
  {
    if EqualsIgnoreCase(a[1..], b[1..]) {
      forall i | 0 <= i < |a| ensures FoldCase(a[i]) == FoldCase(b[i]) {
        if i > 0 { assert a[i] == a[1..][i - 1] && b[i] == b[1..][i - 1]; }
      }
    }
    if EqualsIgnoreCase(a, b) {
      forall i | 0 <= i < |a| - 1 ensures FoldCase(a[1..][i]) == FoldCase(b[1..][i]) {
        assert a[1..][i] == a[i + 1] && b[1..][i] == b[i + 1];
      }
    }
  }

  /** Swapping the arguments negates the comparison. */
  lemma {:induction false} CompareAntisymmetric(a: string, b: string)
    ensures Compare(b, a) == -Compare(a, b)
  {
    if a != [] && b != [] && FoldCase(a[0]) == FoldCase(b[0]) {
      CompareAntisymmetric(a[1..], b[1..]);
    }
  }

  /** Strings equal ignoring case compare alike against every string. */
  lemma {:induction false} CompareCongruent(a: string, a': string, b: string)
    requires EqualsIgnoreCase(a, a')
    ensures Compare(a, b) == Compare(a', b)
  {
    if a != [] && b != [] {
      assert FoldCase(a[0]) == FoldCase(a'[0]);
      if FoldCase(a[0]) == FoldCase(b[0]) {
        assert EqualsIgnoreCase(a[1..], a'[1..]) by {
          forall i | 0 <= i < |a| - 1 ensures FoldCase(a[1..][i]) == FoldCase(a'[1..][i]) {
            assert a[1..][i] == a[i + 1] && a'[1..][i] == a'[i + 1];
          }
        }
        CompareCongruent(a[1..], a'[1..], b[1..]);
      }
    }
  }

  /** The order is transitive. */
  lemma {:induction false} CompareTransitive(a: string, b: string, c: string)
    requires Compare(a, b) <= 0 && Compare(b, c) <= 0
    ensures Compare(a, c) <= 0
  {
    if a != [] && b != [] && c != [] {
      if FoldCase(a[0]) == FoldCase(b[0]) && FoldCase(b[0]) == FoldCase(c[0]) {
        CompareTransitive(a[1..], b[1..], c[1..]);
      }
    }
  }

  /** Transitivity with a strict step gives a strict result. */
  lemma CompareTransitiveStrict(a: string, b: string, c: string)
    requires Compare(a, b) <= 0 && Compare(b, c) <= 0
    requires Compare(a, b) < 0 || Compare(b, c) < 0
    ensures Compare(a, c) < 0
  {
    CompareTransitive(a, b, c);
    if Compare(a, c) == 0 {
      CompareCongruent(a, c, b);
      CompareAntisymmetric(a, b);
      CompareAntisymmetric(c, b);
    }
  }
}
