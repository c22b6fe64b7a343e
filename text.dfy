/** The Kotlin string operations the app relies on, restricted to ASCII:
    `isBlank`, `uppercase`, `equals(ignoreCase = true)`, `substringBefore`
    and the newline-terminated lines that `buildString { appendLine(..) }` produces. */
module Text {

  /** `Char.isWhitespace()` on the ASCII range: space, tab, line feed,
      vertical tab, form feed, carriage return and the four separators 0x1C-0x1F. */
  predicate IsWhitespace(c: char) {
    c == ' ' || ('\t' <= c <= '\r') || ('\U{1C}' <= c <= '\U{1F}')
  }

  /** `isBlank()`: empty, or whitespace only. */
  predicate IsBlank(s: string) {
    forall i :: 0 <= i < |s| ==> IsWhitespace(s[i])
  }

  predicate IsNotBlank(s: string) {
    !IsBlank(s)
  }

  /** `isNotBlank()`: some character is not whitespace; so "" is blank. */
  lemma NotBlankHasVisibleChar(s: string)
    ensures IsNotBlank(s) <==> exists i :: 0 <= i < |s| && !IsWhitespace(s[i])
    ensures s == "" ==> IsBlank(s)
  {
  }

  /** A capital becomes its own small letter, 32 code points on; any other
      character is kept. */
  function LowerChar(c: char): (d: char)
    ensures 'A' <= c <= 'Z' ==> 'a' <= d <= 'z' && d as int == c as int + ('a' as int - 'A' as int)
    ensures !('A' <= c <= 'Z') ==> d == c
  {
    if 'A' <= c <= 'Z' then (c as int - 'A' as int + 'a' as int) as char else c
  }

  /** A small letter becomes its own capital, 32 code points back; any other
      character is kept. */
  function UpperChar(c: char): (d: char)
    ensures 'a' <= c <= 'z' ==> 'A' <= d <= 'Z' && d as int == c as int - ('a' as int - 'A' as int)
    ensures !('a' <= c <= 'z') ==> d == c
  {
    if 'a' <= c <= 'z' then (c as int - 'a' as int + 'A' as int) as char else c
  }

  /** `lowercase()` on ASCII letters. */
  function Lower(s: string): (r: string)
    ensures |r| == |s| && forall i :: 0 <= i < |s| ==> r[i] == LowerChar(s[i])
  {
    seq(|s|, i requires 0 <= i < |s| => LowerChar(s[i]))
  }

  /** `uppercase()` on ASCII letters. */
  function Upper(s: string): (r: string)
    ensures |r| == |s| && forall i :: 0 <= i < |s| ==> r[i] == UpperChar(s[i])
  {
    seq(|s|, i requires 0 <= i < |s| => UpperChar(s[i]))
  }

  /** Upper-casing changes letters only in case: the result equals the
      input ignoring case, and upper-casing again changes nothing. */
  lemma UpperKeepsLetters(s: string)
    ensures Lower(Upper(s)) == Lower(s)
    ensures Upper(Upper(s)) == Upper(s)
  {
  }

  /** Lower-casing twice is lower-casing once. */
  lemma LowerIdempotent(s: string)
    ensures Lower(Lower(s)) == Lower(s)
  {
  }

  /** `a.equals(b, ignoreCase = true)` on ASCII letters: equal lengths and equal
      characters once both are folded to lower case. */
  predicate EqualsIgnoreCase(a: string, b: string) {
    |a| == |b| && forall i :: 0 <= i < |a| ==> LowerChar(a[i]) == LowerChar(b[i])
  }

  /** Case-insensitive equality is equality of the lower-cased strings. */
  lemma EqualsIgnoreCaseIsLowerEquality(a: string, b: string)
    ensures EqualsIgnoreCase(a, b) <==> Lower(a) == Lower(b)
  {
    if Lower(a) == Lower(b) {
      assert forall i :: 0 <= i < |a| ==> Lower(a)[i] == Lower(b)[i];
    }
  }

  /** Index of the first `c` in `s`, or `|s|` when there is none. */
  function IndexOf(s: string, c: char): (k: nat)
    ensures k <= |s|
    ensures forall j :: 0 <= j < k ==> s[j] != c
    ensures k < |s| ==> s[k] == c
    ensures k == |s| <==> c !in s
  {
    if s == [] then 0
    else if s[0] == c then 0
    else 1 + IndexOf(s[1..], c)
  }

  /** `s.substringBefore(c)`: the text before the first `c`, or all of `s`
      when `c` does not occur. */
  function SubstringBefore(s: string, c: char): (r: string)
    ensures r <= s && c !in r
    ensures c in s ==> |r| < |s| && s[|r|] == c
    ensures c !in s ==> r == s
  {
    s[..IndexOf(s, c)]
  }

  /** Lower-casing commutes with cutting before a non-letter. */
  lemma {:induction false} LowerSubstringBefore(s: string, c: char)
    requires !('A' <= c <= 'Z') && !('a' <= c <= 'z')
    ensures SubstringBefore(Lower(s), c) == Lower(SubstringBefore(s, c))
  {
    var k := IndexOf(s, c);
    var l := Lower(s);
    assert forall j :: 0 <= j < |s| ==> (l[j] == c <==> s[j] == c);
    assert IndexOf(l, c) == k;
  }

  /** The part before '@' of a local part, an '@' and a domain is that local part. */
  lemma SubstringBeforeAt(local: string, domain: string)
    requires '@' !in local
    ensures SubstringBefore(local + "@" + domain, '@') == local
  {
    var s := local + "@" + domain;
    var r := SubstringBefore(s, '@');
    assert s[|local|] == '@';
    assert '@' in s;
    assert r == s[..|r|];
    assert local == s[..|local|];
  }

  /** The text `buildString` produces with one `appendLine(l)` per element of `ls`. */
  function Lines(ls: seq<string>): string
  {
    if ls == [] then "" else ls[0] + "\n" + Lines(ls[1..])
  }

  /** Splits text at line feeds; a final piece without a terminating line feed
      is kept as a last line. */
  function SplitLines(s: string): seq<string>
    decreases |s|
  {
    if s == [] then []
    else
      var k := IndexOf(s, '\n');
      if k == |s| then [s] else [s[..k]] + SplitLines(s[k + 1..])
  }

  /** No element of `ls` contains a line feed. */
  predicate SingleLines(ls: seq<string>) {
    forall i :: 0 <= i < |ls| ==> '\n' !in ls[i]
  }

  /** Splitting the text of newline-terminated lines gives those lines back,
      provided none of them contains a line feed of its own. */
  lemma {:induction false} SplitLinesOfLines(ls: seq<string>)
    requires SingleLines(ls)
    ensures SplitLines(Lines(ls)) == ls
  {
    if ls != [] {
      var s := Lines(ls);
      var rest := Lines(ls[1..]);
      assert s == ls[0] + "\n" + rest;
      assert IndexOf(s, '\n') == |ls[0]| by {
        assert '\n' !in ls[0];
        assert s[|ls[0]|] == '\n';
        assert forall j :: 0 <= j < |ls[0]| ==> s[j] == ls[0][j];
      }
      assert s[..|ls[0]|] == ls[0];
      assert s[|ls[0]| + 1..] == rest;
      assert SingleLines(ls[1..]) by {
        forall i | 0 <= i < |ls[1..]| ensures '\n' !in ls[1..][i] {
          assert ls[1..][i] == ls[i + 1];
        }
      }
      SplitLinesOfLines(ls[1..]);
    }
  }

  /** Every newline-terminated text ends with a line feed and has as many line
      feeds as lines. */
  lemma {:induction false} LinesLength(ls: seq<string>)
    ensures |Lines(ls)| == |ls| + SumLengths(ls)
    ensures ls != [] ==> Lines(ls)[|Lines(ls)| - 1] == '\n'
  {
    if ls != [] {
      LinesLength(ls[1..]);
    }
  }

  function SumLengths(ls: seq<string>): nat {
    if ls == [] then 0 else |ls[0]| + SumLengths(ls[1..])
  }
}
