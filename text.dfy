/** String helpers the services use: decimal digits (Number() on a digit
    string and its inverse), prefix tests, slice(0, n) and a global replace. */
module Text {

  predicate IsDigit(c: char) {
    '0' <= c <= '9'
  }

  predicate AllDigits(s: string) {
    forall i :: 0 <= i < |s| ==> IsDigit(s[i])
  }

  /** The value JavaScript's Number() gives a string of decimal digits ("" gives 0). */
  function DigitsValue(s: string): nat
    requires AllDigits(s)
  {
    if s == [] then 0
    else 10 * DigitsValue(s[..|s| - 1]) + (s[|s| - 1] as int - '0' as int)
  }

  function DigitChar(d: nat): (c: char)
    requires d < 10
    ensures IsDigit(c) && c as int - '0' as int == d
  {
    ('0' as int + d) as char
  }

  /** The decimal rendering of a natural number, as String(n). */
  function NatToString(n: nat): (s: string)
    ensures |s| >= 1 && AllDigits(s)
    ensures DigitsValue(s) == n
    decreases n
  {
    if n < 10 then [DigitChar(n)]
    else
      var prefix := NatToString(n / 10);
      var s := prefix + [DigitChar(n % 10)];
      assert s[..|s| - 1] == prefix;
      s
  }

  /** Two-digit zero-padded rendering, as in "09". */
  function Pad2(n: nat): (s: string)
    ensures |s| >= 2 && AllDigits(s)
    ensures DigitsValue(s) == n
  {
    if n < 10 then
      var s := ['0', DigitChar(n)];
      assert s[..1] == ['0'] && ['0'][..0] == [];
      assert DigitsValue(['0']) == 0;
      s
    else NatToString(n)
  }

  predicate StartsWith(s: string, prefix: string) {
    |prefix| <= |s| && s[..|prefix|] == prefix
  }

  /** s.slice(0, n) */
  function Truncate(s: string, n: nat): (r: string)
    ensures |r| == if |s| <= n then |s| else n
    ensures StartsWith(s, r)
  {
    if |s| <= n then s else s[..n]
  }

  /** `pat` occurs in `s` at index `i`. */
  predicate OccursAt(s: string, pat: string, i: int) {
    0 <= i && i + |pat| <= |s| && s[i..i + |pat|] == pat
  }

  /** `pat` occurs somewhere in `s`. */
  predicate Contains(s: string, pat: string) {
    exists i :: 0 <= i <= |s| && OccursAt(s, pat, i)
  }

  /** s.replace(/pat/g, rep): leftmost, non-overlapping occurrences are replaced. */
  function ReplaceAll(s: string, pat: string, rep: string): string
    requires |pat| > 0
    decreases |s|
  {
    if |s| < |pat| then s
    else if s[..|pat|] == pat then rep + ReplaceAll(s[|pat|..], pat, rep)
    else [s[0]] + ReplaceAll(s[1..], pat, rep)
  }

  /** The replacement text `String.prototype.replace` inserts for one match of a
      pattern without capture groups: "$$" is "$", "$&" the match, "$`" the text
      before the match and "$'" the text after it; any other "$" stays as written. */
  function Expand(rep: string, matched: string, before: string, after: string): (r: string)
    ensures '$' !in rep ==> r == rep
    decreases |rep|
  {
    if rep == [] then []
    else if rep[0] == '$' && |rep| >= 2 && rep[1] == '$' then "$" + Expand(rep[2..], matched, before, after)
    else if rep[0] == '$' && |rep| >= 2 && rep[1] == '&' then matched + Expand(rep[2..], matched, before, after)
    else if rep[0] == '$' && |rep| >= 2 && rep[1] == '`' then before + Expand(rep[2..], matched, before, after)
    else if rep[0] == '$' && |rep| >= 2 && rep[1] == '\'' then after + Expand(rep[2..], matched, before, after)
    else [rep[0]] + Expand(rep[1..], matched, before, after)
  }

  /** `s.replace(/pat/g, rep)` on the part `s` of a text that follows `before`: the
      leftmost, non-overlapping matches are each replaced by the expansion of `rep`
      for that match, which sees the whole text before and after the match. */
  function ReplaceJs(before: string, s: string, pat: string, rep: string): string
    requires |pat| > 0
    decreases |s|
  {
    if |s| < |pat| then s
    else if s[..|pat|] == pat then Expand(rep, pat, before, s[|pat|..]) + ReplaceJs(before + pat, s[|pat|..], pat, rep)
    else [s[0]] + ReplaceJs(before + [s[0]], s[1..], pat, rep)
  }

  /** With no "$" in the replacement every match is replaced by the text itself. */
  lemma {:induction false} ReplaceJsLiteral(before: string, s: string, pat: string, rep: string)
    requires |pat| > 0 && '$' !in rep
    ensures ReplaceJs(before, s, pat, rep) == ReplaceAll(s, pat, rep)
    decreases |s|
  {
    if |s| >= |pat| {
      if s[..|pat|] == pat {
        ReplaceJsLiteral(before + pat, s[|pat|..], pat, rep);
      } else {
        ReplaceJsLiteral(before + [s[0]], s[1..], pat, rep);
      }
    }
  }

  /** An occurrence in the tail of a text is an occurrence in the text, one further on. */
  lemma OccursInTail(s: string, pat: string, i: int)
    requires |s| > 0 && OccursAt(s[1..], pat, i)
    ensures OccursAt(s, pat, i + 1)
  {
    assert s[1..][i..i + |pat|] == s[i + 1..i + 1 + |pat|];
  }

  /** Away from a match, the first character is copied and the rest replaced on. */
  lemma ReplaceJsPastChar(before: string, s: string, pat: string, rep: string)
    requires |pat| > 0 && |s| >= |pat| && !OccursAt(s, pat, 0)
    ensures ReplaceJs(before, s, pat, rep) == [s[0]] + ReplaceJs(before + [s[0]], s[1..], pat, rep)
  {
    assert s[0..|pat|] == s[..|pat|];
  }

  /** Where the pattern does not occur, the text is copied as it is. */
  lemma {:induction false} ReplaceJsSkips(before: string, s: string, j: nat, pat: string, rep: string)
    requires |pat| > 0 && j <= |s|
    requires forall i :: 0 <= i < j ==> !OccursAt(s, pat, i)
    ensures ReplaceJs(before, s, pat, rep) == s[..j] + ReplaceJs(before + s[..j], s[j..], pat, rep)
    decreases j
  {
    if j == 0 {
      assert before + s[..0] == before && s[0..] == s;
    } else if |s| < |pat| {
      assert s[..j] + s[j..] == s;
    } else {
      var t := s[1..];
      forall i | 0 <= i < j - 1 ensures !OccursAt(t, pat, i) {
        if OccursAt(t, pat, i) {
          OccursInTail(s, pat, i);
        }
      }
      ReplaceJsSkips(before + [s[0]], t, j - 1, pat, rep);
      SkipOneMore(before, s, j, pat, rep);
    }
  }

  /** The step of the skip lemma: one more character copied in front. */
  lemma SkipOneMore(before: string, s: string, j: nat, pat: string, rep: string)
    requires |pat| > 0 && 0 < j <= |s| && |s| >= |pat| && !OccursAt(s, pat, 0)
    requires var t := s[1..];
      ReplaceJs(before + [s[0]], t, pat, rep) == t[..j - 1] + ReplaceJs(before + [s[0]] + t[..j - 1], t[j - 1..], pat, rep)
    ensures ReplaceJs(before, s, pat, rep) == s[..j] + ReplaceJs(before + s[..j], s[j..], pat, rep)
  {
    var t := s[1..];
    ReplaceJsPastChar(before, s, pat, rep);
    TailSlices(before, s, j);
    var rest := ReplaceJs(before + s[..j], s[j..], pat, rep);
    assert [s[0]] + (t[..j - 1] + rest) == ([s[0]] + t[..j - 1]) + rest;
  }

  /** The slices of a text and its tail that the skip lemma lines up. */
  lemma TailSlices(before: string, s: string, j: nat)
    requires 0 < j <= |s|
    ensures s[..j] == [s[0]] + s[1..][..j - 1]
    ensures before + [s[0]] + s[1..][..j - 1] == before + s[..j]
    ensures s[1..][j - 1..] == s[j..]
  {
    assert s[..j] == [s[0]] + s[1..][..j - 1];
  }

  /** At a match, the expansion for it comes first and the text after it is replaced on. */
  lemma ReplaceJsAtMatch(before: string, pat: string, t: string, rep: string)
    requires |pat| > 0
    ensures ReplaceJs(before, pat + t, pat, rep) == Expand(rep, pat, before, t) + ReplaceJs(before + pat, t, pat, rep)
  {
    assert (pat + t)[..|pat|] == pat && (pat + t)[|pat|..] == t;
  }
}
