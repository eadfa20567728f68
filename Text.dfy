/**
 * The string primitives the extractors rely on, narrowed to ASCII:
 * the classes behind `\d`, `\w` and `\s`, `str.lower`, `str.strip`,
 * `str.splitlines` (on '\n' only), `str.replace(c, "")`,
 * `str.split(c)[0]`, the `in` operator on strings and `str.join`.
 */
module Text {

  /** `\d`, restricted to ASCII. */
  predicate IsDigit(c: char) { '0' <= c <= '9' }

  /** `\w`, restricted to ASCII: letters, digits and underscore. */
  predicate IsWordChar(c: char) {
    'a' <= c <= 'z' || 'A' <= c <= 'Z' || IsDigit(c) || c == '_'
  }

  /** `\s` and `str.isspace`, restricted to ASCII (they agree there). */
  predicate IsSpace(c: char) {
    c == ' ' || c == '\t' || c == '\n' || c == '\r' || c == '\U{0B}' || c == '\U{0C}'
    || ('\U{1C}' <= c <= '\U{1F}')
  }

  /** `str.lower` on one ASCII character. */
  function ToLower(c: char): char {
    if 'A' <= c <= 'Z' then (c as int + 32) as char else c
  }

  /** `str.lower()` on ASCII, character by character: the length is kept. */
  function Lower(s: string): (r: string)
    ensures |r| == |s|
  {
    seq(|s|, i requires 0 <= i < |s| => ToLower(s[i]))
  }

  /**
   * `Lower` turns each upper-case letter into its own lower-case letter,
   * leaves no upper-case letter and keeps every other character.
   */
  lemma LowerFolds(s: string)
    ensures forall i :: 0 <= i < |s| && 'A' <= s[i] <= 'Z' ==> Lower(s)[i] == (s[i] as int + 32) as char
    ensures forall i :: 0 <= i < |s| ==> !('A' <= Lower(s)[i] <= 'Z')
    ensures forall i :: 0 <= i < |s| && !('A' <= s[i] <= 'Z') ==> Lower(s)[i] == s[i]
  {
  }

  /** Lower-casing never turns a non-space into a space or back. */
  lemma ToLowerKeepsSpace(c: char)
    ensures IsSpace(ToLower(c)) == IsSpace(c)
  {
  }

  /** Two characters that are equal up to case are both spaces or both not. */
  lemma SameUpToCaseSpace(a: char, b: char)
    requires ToLower(a) == ToLower(b)
    ensures IsSpace(a) == IsSpace(b)
  {
    ToLowerKeepsSpace(a);
    ToLowerKeepsSpace(b);
  }

  /** `t` occurs in `s` starting at index `i`. */
  predicate OccursAt(s: string, t: string, i: nat) {
    i + |t| <= |s| && s[i..i + |t|] == t
  }

  /** Python's `t in s` for strings. */
  predicate Contains(s: string, t: string): (b: bool)
    ensures b ==> |t| <= |s|
    ensures t == [] ==> b
  {
    assert OccursAt(s, [], 0);
    exists i: nat | i <= |s| :: OccursAt(s, t, i)
  }

  /** The number of whitespace characters at the start of `s`. */
  function LeadingSpaces(s: string): (n: nat)
    ensures n <= |s|
    ensures forall i :: 0 <= i < n ==> IsSpace(s[i])
    ensures n == |s| || !IsSpace(s[n])
    decreases |s|
  {
    if |s| > 0 && IsSpace(s[0]) then 1 + LeadingSpaces(s[1..]) else 0
  }

  function TrimEnd(s: string): (r: string)
    ensures |r| <= |s| && r == s[..|r|]
    ensures forall i :: |r| <= i < |s| ==> IsSpace(s[i])
    ensures r == [] || !IsSpace(r[|r| - 1])
    decreases |s|
  {
    if |s| > 0 && IsSpace(s[|s| - 1]) then TrimEnd(s[..|s| - 1]) else s
  }

  predicate AllSpace(s: string) {
    forall k :: 0 <= k < |s| ==> IsSpace(s[k])
  }

  /** No whitespace at either end: what `strip()` leaves. */
  predicate IsStripped(t: string) {
    t == [] || (!IsSpace(t[0]) && !IsSpace(t[|t| - 1]))
  }

  /**
   * `str.strip()`: `r` is what is left of `s` once the whitespace at both
   * ends is removed; it starts at `LeadingSpaces(s)`, and it is empty
   * exactly when `s` is all whitespace.
   */
  function Strip(s: string): (r: string)
    ensures LeadingSpaces(s) + |r| <= |s|
    ensures r == s[LeadingSpaces(s)..LeadingSpaces(s) + |r|]
    ensures forall i :: LeadingSpaces(s) + |r| <= i < |s| ==> IsSpace(s[i])
    ensures r == [] <==> AllSpace(s)
    ensures IsStripped(r)
  {
    var a := LeadingSpaces(s);
    var r := TrimEnd(s[a..]);
    assert r != [] ==> r[0] == s[a];
    r
  }

  /** A string that neither starts nor ends with whitespace is its own `strip()`. */
  lemma StripFixed(s: string)
    requires s == [] || (!IsSpace(s[0]) && !IsSpace(s[|s| - 1]))
    ensures Strip(s) == s
  {
    if s != [] {
      assert LeadingSpaces(s) == 0;
    }
  }

  /** A string without any whitespace is its own `strip()`. */
  lemma StripNoSpace(s: string)
    requires forall i :: 0 <= i < |s| ==> !IsSpace(s[i])
    ensures Strip(s) == s
  {
    StripFixed(s);
  }

  /** Stripping twice changes nothing. */
  lemma StripIdempotent(s: string)
    ensures Strip(Strip(s)) == Strip(s)
  {
    StripFixed(Strip(s));
  }

  /** Stripping removes characters and never adds one. */
  lemma StripKeepsOut(s: string, c: char)
    requires c !in s
    ensures c !in Strip(s)
  {
    var a := LeadingSpaces(s);
    var r := Strip(s);
    assert forall i :: 0 <= i < |r| ==> r[i] == s[a + i];
  }

  /** Leading whitespace followed by a non-space is exactly that whitespace. */
  lemma {:induction false} LeadingSpacesAfter(w: string, x: string)
    requires AllSpace(w) && x != [] && !IsSpace(x[0])
    ensures LeadingSpaces(w + x) == |w|
    decreases |w|
  {
    if w == [] {
      assert w + x == x;
    } else {
      assert (w + x)[1..] == w[1..] + x;
      LeadingSpacesAfter(w[1..], x);
    }
  }

  /** Stripping whitespace put in front of a string that neither starts nor ends with whitespace gives that string. */
  lemma StripSpacePrefix(w: string, x: string)
    requires AllSpace(w) && x != [] && !IsSpace(x[0]) && !IsSpace(x[|x| - 1])
    ensures Strip(w + x) == x
  {
    var c := w + x;
    LeadingSpacesAfter(w, x);
    var r := Strip(c);
    assert c[|w|] == x[0];
    assert !AllSpace(c);
    assert c[|w| + |x| - 1] == x[|x| - 1];
    assert |r| == |x|;
    assert c[|w|..] == x;
  }

  /** The first index at or after `k` that holds `c`, or `|s|` when there is none. */
  function IndexOf(s: string, c: char, k: nat): (i: nat)
    requires k <= |s|
    ensures k <= i <= |s|
    ensures i < |s| ==> s[i] == c
    ensures forall j :: k <= j < i ==> s[j] != c
    decreases |s| - k
  {
    if k == |s| || s[k] == c then k else IndexOf(s, c, k + 1)
  }

  /** End of the line that contains position `t`: the next '\n', or the end of the text. */
  function LineEnd(s: string, t: nat): nat
    requires t <= |s|
  {
    IndexOf(s, '\n', t)
  }

  /**
   * `str.splitlines()`, with '\n' as the only line boundary: the text
   * is cut at every '\n', and a final '\n' does not start a new line.
   * So the lines hold no '\n', there are none exactly when the text is
   * empty, and joined with '\n' they give back the text without its
   * final '\n'.
   */
  function SplitLines(s: string): (lines: seq<string>)
    ensures forall i, j :: 0 <= i < |lines| && 0 <= j < |lines[i]| ==> lines[i][j] != '\n'
    ensures lines == [] <==> s == []
    ensures Join(lines, "\n") == if s != [] && s[|s| - 1] == '\n' then s[..|s| - 1] else s
    decreases |s|
  {
    if s == [] then []
    else
      var k := IndexOf(s, '\n', 0);
      if k == |s| then [s]
      else
        var rest := SplitLines(s[k + 1..]);
        assert forall j :: 0 <= j < k ==> s[..k][j] != '\n';
        assert s == s[..k] + "\n" + s[k + 1..];
        JoinCons(s[..k], rest, "\n");
        [s[..k]] + rest
  }

  /** Every line is blank: `strip()` leaves nothing of it. */
  predicate AllBlank(lines: seq<string>) {
    forall i :: 0 <= i < |lines| ==> Strip(lines[i]) == []
  }

  lemma AllBlankCons(x: string, ys: seq<string>)
    ensures AllBlank([x] + ys) <==> Strip(x) == [] && AllBlank(ys)
  {
    if Strip(x) == [] && AllBlank(ys) {
      forall i | 0 <= i < |[x] + ys| ensures Strip(([x] + ys)[i]) == [] {
        if i > 0 { assert ([x] + ys)[i] == ys[i - 1]; }
      }
    }
    if AllBlank([x] + ys) {
      assert Strip(([x] + ys)[0]) == [];
      forall i | 0 <= i < |ys| ensures Strip(ys[i]) == [] {
        assert ys[i] == ([x] + ys)[i + 1];
      }
    }
  }

  lemma AllSpaceAround(s: string, k: nat)
    requires k < |s| && IsSpace(s[k])
    ensures AllSpace(s) <==> AllSpace(s[..k]) && AllSpace(s[k + 1..])
  {
    if AllSpace(s[..k]) && AllSpace(s[k + 1..]) {
      forall j | 0 <= j < |s| ensures IsSpace(s[j]) {
        if j < k {
          assert s[j] == s[..k][j];
        } else if j > k {
          assert s[j] == s[k + 1..][j - k - 1];
        }
      }
    }
  }

  /** Every line of the text is blank exactly when the whole text is whitespace. */
  lemma {:induction false} AllLinesBlankIff(s: string)
    ensures AllBlank(SplitLines(s)) <==> AllSpace(s)
    decreases |s|
  {
    if s != [] {
      var k := IndexOf(s, '\n', 0);
      if k < |s| {
        AllLinesBlankIff(s[k + 1..]);
        AllBlankCons(s[..k], SplitLines(s[k + 1..]));
        AllSpaceAround(s, k);
      } else {
        assert SplitLines(s) == [s];
        AllBlankCons(s, []);
      }
    }
  }

  /** `str.replace(c, "")`: `s` with every occurrence of `c` removed. */
  function Without(s: string, c: char): (r: string)
    ensures c !in r
    ensures forall x :: x in r <==> x in s && x != c
    ensures |r| <= |s|
    decreases |s|
  {
    if s == [] then [] else (if s[0] == c then [] else [s[0]]) + Without(s[1..], c)
  }

  lemma {:induction false} WithoutAppend(a: string, b: string, c: char)
    ensures Without(a + b, c) == Without(a, c) + Without(b, c)
    decreases |a|
  {
    if a != [] {
      assert (a + b)[1..] == a[1..] + b;
      WithoutAppend(a[1..], b, c);
    } else {
      assert a + b == b;
    }
  }

  lemma {:induction false} WithoutAbsent(s: string, c: char)
    requires c !in s
    ensures Without(s, c) == s
    decreases |s|
  {
    if s != [] {
      WithoutAbsent(s[1..], c);
    }
  }

  /** Removing `c` from `head + tail` touches only `head` when `tail` holds no `c`. */
  lemma SplitWithout(head: string, tail: string, c: char)
    requires c !in tail
    ensures Without(head + tail, c) == Without(head, c) + tail
  {
    WithoutAbsent(tail, c);
    WithoutAppend(head, tail, c);
  }

  /** Removing `c` from `s` touches only `s[..k]` when `s[k..]` holds no `c`. */
  lemma WithoutBeforeSuffix(s: string, k: nat, c: char)
    requires k <= |s| && c !in s[k..]
    ensures Without(s, c) == Without(s[..k], c) + s[k..]
  {
    assert s == s[..k] + s[k..];
    SplitWithout(s[..k], s[k..], c);
  }

  /** `s.split(c)[0]`: everything before the first `c`. */
  function BeforeFirst(s: string, c: char): (r: string)
    ensures c !in r && |r| <= |s| && r == s[..|r|]
    ensures |r| < |s| ==> s[|r|] == c
  {
    s[..IndexOf(s, c, 0)]
  }

  /**
   * `sep.join(xs)`: it starts with the first piece, and joins nothing
   * to the empty string.
   */
  function Join(xs: seq<string>, sep: string): (r: string)
    ensures xs == [] ==> r == []
    ensures xs != [] ==> xs[0] <= r
    decreases |xs|
  {
    if xs == [] then [] else if |xs| == 1 then xs[0] else xs[0] + sep + Join(xs[1..], sep)
  }

  /** Joining a first piece onto the rest puts one separator between them, unless there is no rest. */
  lemma JoinCons(x: string, xs: seq<string>, sep: string)
    ensures Join([x] + xs, sep) == if xs == [] then x else x + sep + Join(xs, sep)
  {
    assert ([x] + xs)[1..] == xs;
  }
}
