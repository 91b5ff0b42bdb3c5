/**
 * The two functions of Go's `strings` package that the signature middleware relies on:
 * `strings.Index` (first occurrence of a substring, or -1) and `strings.Split` with a
 * one-character separator. `Join` is the inverse of `Split`.
 */
module Strings {

  /** `sub` occurs in `s` starting at position `i`. */
  predicate OccursAt(s: string, sub: string, i: int)
  {
    0 <= i && i + |sub| <= |s| && s[i..i + |sub|] == sub
  }

  /** `strings.Index(s, sub)`: the first position where `sub` occurs in `s`, or -1 when it does not occur. */
  function Index(s: string, sub: string): (r: int)
    ensures r == -1 || OccursAt(s, sub, r)
    ensures r == -1 ==> forall i :: !OccursAt(s, sub, i)
    ensures forall i :: 0 <= i < r ==> !OccursAt(s, sub, i)
    decreases |s|
  {
    if |s| < |sub| then -1
    else if s[..|sub|] == sub then 0
    else
      var k := Index(s[1..], sub);
      forall i | 1 <= i ensures OccursAt(s, sub, i) <==> OccursAt(s[1..], sub, i - 1) {
        OccursAfterFirst(s, sub, i - 1);
      }
      assert !OccursAt(s, sub, 0);
      if k == -1 then -1 else k + 1
  }

  /** An occurrence in `s[1..]` is an occurrence in `s`, one position further. */
  lemma OccursAfterFirst(s: string, sub: string, i: nat)
    requires |s| >= 1
    ensures OccursAt(s[1..], sub, i) <==> OccursAt(s, sub, i + 1)
  {
    if i + 1 + |sub| <= |s| {
      assert s[1..][i..i + |sub|] == s[i + 1..i + 1 + |sub|];
    }
  }

  /** Joins the pieces, putting `sep` between each two of them. */
  function Join(parts: seq<string>, sep: char): string
    requires |parts| >= 1
  {
    if |parts| == 1 then parts[0] else parts[0] + [sep] + Join(parts[1..], sep)
  }

  /**
   * `strings.Split(s, string(sep))`: the pieces of `s` between occurrences of `sep`.
   * There is always at least one piece (`Split("")` is `[""]`); no piece contains `sep`;
   * joining the pieces with `sep` gives back `s`; and there are two or more pieces exactly
   * when `sep` occurs in `s`. The first piece is the text before the first `sep`.
   */
  function Split(s: string, sep: char): (parts: seq<string>)
    ensures |parts| >= 1
    ensures forall i :: 0 <= i < |parts| ==> sep !in parts[i]
    ensures Join(parts, sep) == s
    ensures |parts| >= 2 <==> sep in s
    ensures |parts[0]| <= |s| && parts[0] == s[..|parts[0]|]
    ensures |parts| >= 2 ==> |parts[0]| < |s| && s[|parts[0]|] == sep
    decreases |s|
  {
    if s == [] then [[]]
    else
      var rest := Split(s[1..], sep);
      if s[0] == sep then
        assert s == [sep] + Join(rest, sep);
        [[]] + rest
      else
        var parts := [[s[0]] + rest[0]] + rest[1..];
        assert parts[1..] == rest[1..];
        assert Join(parts, sep) == s by {
          if |rest| > 1 {
            assert Join(rest, sep) == rest[0] + [sep] + Join(rest[1..], sep);
          }
        }
        parts
  }

  /** The position of the first `c` in `s`. */
  function FirstIndexOf(s: string, c: char): (i: nat)
    requires c in s
    ensures i < |s| && s[i] == c && c !in s[..i]
  {
    if s[0] == c then 0
    else
      var k := FirstIndexOf(s[1..], c);
      assert s[..k + 1] == [s[0]] + s[1..][..k];
      k + 1
  }

  /** The first piece of `Split(s, sep)` is the text of `s` before the first `sep`. */
  lemma SplitHeadIsTextBeforeFirst(s: string, sep: char)
    requires sep in s
    ensures Split(s, sep)[0] == s[..FirstIndexOf(s, sep)]
  {
  }
}
