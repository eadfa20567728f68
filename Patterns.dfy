/**
 * The fixed regular expressions of the extractors, each written as a
 * dedicated scanner that follows Python's `re`: a match is looked for at
 * each position in turn, quantifiers are greedy, and where a quantifier
 * has to give characters back the scanner takes the first alternative the
 * backtracking engine would reach.  `Search` is `re.search` and `FindAll`
 * is `re.findall` over these scanners.
 */
module Patterns {
  import opened Wrappers
  import opened Text

  /** The character classes the patterns use. */
  datatype Class =
    | ColonOrSpace   // [:\s]
    | Space          // \s
    | TokenChar      // [\w-]
    | Digit          // \d
    | DigitOrComma   // [\d,]
    | NonDigit       // [^\d]

  predicate In(c: char, cls: Class) {
    match cls
    case ColonOrSpace => c == ':' || IsSpace(c)
    case Space => IsSpace(c)
    case TokenChar => IsWordChar(c) || c == '-'
    case Digit => IsDigit(c)
    case DigitOrComma => IsDigit(c) || c == ','
    case NonDigit => !IsDigit(c)
  }

  predicate AllIn(s: string, lo: nat, hi: nat, cls: Class)
    requires lo <= hi <= |s|
  {
    forall i :: lo <= i < hi ==> In(s[i], cls)
  }

  /** The end of the longest run of `cls` characters from `k`: what `cls*` matches greedily. */
  function RunEnd(s: string, k: nat, cls: Class): (e: nat)
    requires k <= |s|
    ensures k <= e <= |s| && AllIn(s, k, e, cls)
    ensures e == |s| || !In(s[e], cls)
    decreases |s| - k
  {
    if k < |s| && In(s[k], cls) then RunEnd(s, k + 1, cls) else k
  }

  /** A run of `cls` that starts at `k` never goes past `RunEnd`, and reaches it. */
  lemma RunEndCovers(s: string, k: nat, e: nat, cls: Class)
    requires k <= e <= |s| && AllIn(s, k, e, cls)
    ensures e <= RunEnd(s, k, cls)
  {
  }

  /** `[\$₹]`. */
  predicate IsCurrency(c: char) { c == '$' || c == '\U{20B9}' }

  /** `[-/\.]`. */
  predicate IsDateSep(c: char) { c == '-' || c == '/' || c == '.' }

  /** The literal `lit` matches at `p` under `re.IGNORECASE` (ASCII case folding). */
  predicate LiteralAt(s: string, p: nat, lit: string) {
    p + |lit| <= |s| && Lower(s[p..p + |lit|]) == Lower(lit)
  }

  /** A literal that starts with a non-space only matches at a non-space. */
  lemma LiteralAtNonSpace(s: string, p: nat, lit: string)
    requires LiteralAt(s, p, lit) && |lit| > 0 && !IsSpace(lit[0])
    ensures p < |s| && !IsSpace(s[p])
  {
    assert Lower(s[p..p + |lit|])[0] == ToLower(s[p]);
    SameUpToCaseSpace(s[p], lit[0]);
  }

  /** The text a match captured, as positions `lo` (inclusive) to `hi` (exclusive). */
  datatype Span = Span(lo: nat, hi: nat)

  /** Every regular expression the extractors search for. */
  datatype Pattern =
    | VendorLabel(tag: string)   // label[:\s]+(.+)
    | NumberLabel(tag: string)   // label[:\s]+([\w-]+)
    | InvDotNo                     // Inv\.\s*No[:\s]+([\w-]+)
    | LabeledDate                  // Invoice Date[:\s]+(\d{1,2}[-/\.]\d{1,2}[-/\.]\d{2,4})
    | Date                         // (\d{1,2}[-/\.]\d{1,2}[-/\.]\d{2,4})
    | LabeledAmount                // (TOTAL PAY|...|Invoice Total)[^\d]*([\$₹]?\s*[\d,]+\.\d{2})
    | Decimal                      // \d[\d,]*\.\d{2}

  // ---------------------------------------------------------------- label[:\s]+(.+)

  /**
   * Where `(.+)` starts once `[:\s]+` has run greedily up to `t`: the
   * engine gives back one character at a time, so the start is the
   * largest `u` in `[lo, t]` at which a character other than '\n'
   * stands; `.+` then runs to the end of that line.
   */
  function DotPlusFrom(s: string, lo: nat, t: nat): (r: Option<Span>)
    requires lo <= t <= |s|
    ensures r.Some? ==> lo <= r.value.lo <= t && r.value.lo < r.value.hi <= |s|
                        && s[r.value.lo] != '\n' && r.value.hi == LineEnd(s, r.value.lo)
    ensures r.Some? ==> forall u :: r.value.lo < u <= t && u < |s| ==> s[u] == '\n'
    ensures r.None? ==> forall u :: lo <= u <= t && u < |s| ==> s[u] == '\n'
    decreases t - lo
  {
    if t < |s| && s[t] != '\n' then Some(Span(t, LineEnd(s, t)))
    else if t == lo then None
    else DotPlusFrom(s, lo, t - 1)
  }

  /**
   * `tag[:\s]+(.+)` at `p`.  The group never holds a '\n' and runs to
   * the end of its line; it starts after at least one `[:\s]` and as
   * late as the greedy run of `[:\s]` allows: every later position up
   * to the end of that run holds a '\n'.  There is no match exactly
   * when every way of ending a nonempty `[:\s]` run after the tag
   * leaves a '\n' or the end of the text.
   */
  function VendorAt(s: string, p: nat, tag: string): (r: Option<Span>)
    ensures r.Some? ==> LiteralAt(s, p, tag)
                        && p + |tag| < r.value.lo < r.value.hi <= |s|
                        && AllIn(s, p + |tag|, r.value.lo, ColonOrSpace)
                        && (forall i :: r.value.lo <= i < r.value.hi ==> s[i] != '\n')
                        && (r.value.hi == |s| || s[r.value.hi] == '\n')
                        && r.value.lo <= RunEnd(s, p + |tag|, ColonOrSpace)
                        && (forall u :: r.value.lo < u <= RunEnd(s, p + |tag|, ColonOrSpace) && u < |s| ==> s[u] == '\n')
    ensures r.None? && LiteralAt(s, p, tag) ==>
              forall u :: p + |tag| < u < |s| && AllIn(s, p + |tag|, u, ColonOrSpace) ==> s[u] == '\n'
  {
    if !LiteralAt(s, p, tag) then None
    else
      var e := p + |tag|;
      var m := RunEnd(s, e, ColonOrSpace);
      if m == e then None
      else
        var r := DotPlusFrom(s, e + 1, m);
        assert r.None? ==> forall u :: e < u < |s| && AllIn(s, e, u, ColonOrSpace) ==> s[u] == '\n' by {
          forall u | e < u < |s| && AllIn(s, e, u, ColonOrSpace) ensures u <= m {
            RunEndCovers(s, e, u, ColonOrSpace);
          }
        }
        r
  }

  // ---------------------------------------------------------------- label[:\s]+([\w-]+)

  /**
   * `[:\s]+([\w-]+)` at `e`.  The classes are disjoint, so the group is
   * the maximal run of `[\w-]` right after a nonempty run of `[:\s]`,
   * and there is no match exactly when no nonempty run of `[:\s]` from
   * `e` is followed by a `[\w-]` character.
   */
  function TokenAfter(s: string, e: nat): (r: Option<Span>)
    requires e <= |s|
    ensures r.Some? ==> e < r.value.lo < r.value.hi <= |s|
                        && AllIn(s, e, r.value.lo, ColonOrSpace)
                        && AllIn(s, r.value.lo, r.value.hi, TokenChar)
                        && (r.value.hi == |s| || !In(s[r.value.hi], TokenChar))
    ensures r.None? ==> forall u :: e < u < |s| && AllIn(s, e, u, ColonOrSpace) ==> !In(s[u], TokenChar)
  {
    var m := RunEnd(s, e, ColonOrSpace);
    assert forall u :: e < u < |s| && AllIn(s, e, u, ColonOrSpace) ==> u <= m by {
      forall u | e < u < |s| && AllIn(s, e, u, ColonOrSpace) ensures u <= m {
        RunEndCovers(s, e, u, ColonOrSpace);
      }
    }
    if m == e then None
    else
      var t := RunEnd(s, m, TokenChar);
      if t == m then None else Some(Span(m, t))
  }

  /**
   * Where the tag `Inv\.\s*No` ends when it matches at `p`: only "Inv.",
   * a run of whitespace and "No" are accepted; `InvDotNoAnySpacing`
   * shows every such run is.
   */
  function InvDotNoEnd(s: string, p: nat): (r: Option<nat>)
    ensures r.Some? ==> p + 6 <= r.value <= |s|
    ensures r.Some? ==> LiteralAt(s, p, "Inv.") && AllIn(s, p + 4, r.value - 2, Space)
                        && LiteralAt(s, r.value - 2, "No")
  {
    if LiteralAt(s, p, "Inv.") then
      var k := RunEnd(s, p + 4, Space);
      if LiteralAt(s, k, "No") then Some(k + 2) else None
    else None
  }

  /** `Inv.` and `No` may be separated by any run of whitespace, including none. */
  lemma InvDotNoAnySpacing(s: string, p: nat, k: nat)
    requires LiteralAt(s, p, "Inv.") && p + 4 <= k <= |s| && AllIn(s, p + 4, k, Space)
    requires LiteralAt(s, k, "No")
    ensures InvDotNoEnd(s, p) == Some(k + 2)
  {
    RunEndCovers(s, p + 4, k, Space);
    LiteralAtNonSpace(s, k, "No");
  }

  // ---------------------------------------------------------------- dates

  /** `\d{a}` followed by a date separator at `k`. */
  predicate DigitsSep(s: string, k: nat, a: nat) {
    k + a < |s| && AllIn(s, k, k + a, Digit) && IsDateSep(s[k + a])
  }

  /**
   * `\d{1,2}[-/\.]` at `k`; the position after the separator.  The count
   * of digits is forced: a digit is never a separator.
   */
  function DigitsThenSep(s: string, k: nat): (r: Option<nat>)
    ensures r.Some? ==> k + 2 <= r.value <= k + 3 && r.value <= |s| && DigitsSep(s, k, r.value - k - 1)
    ensures forall a :: 1 <= a <= 2 && DigitsSep(s, k, a) ==> r == Some(k + a + 1)
  {
    if k + 2 < |s| && IsDigit(s[k]) && IsDigit(s[k + 1]) && IsDateSep(s[k + 2]) then Some(k + 3)
    else if k + 1 < |s| && IsDigit(s[k]) && IsDateSep(s[k + 1]) then Some(k + 2)
    else None
  }

  /**
   * `\d{1,2}[-/\.]\d{1,2}[-/\.]\d{2,4}` at `k`, ending at `e`, with `a`
   * and `b` digits in the first two parts.  The two separators are
   * chosen independently.
   */
  predicate DatePartsAt(s: string, k: nat, e: nat, a: nat, b: nat) {
    1 <= a <= 2 && 1 <= b <= 2 && k + a + b + 4 <= e <= k + a + b + 6 && e <= |s|
    && DigitsSep(s, k, a) && DigitsSep(s, k + a + 1, b)
    && AllIn(s, k + a + b + 2, e, Digit)
  }

  /** `s[k..e]` has the shape of a date. */
  predicate DateShapeAt(s: string, k: nat, e: nat) {
    DatePartsAt(s, k, e, 1, 1) || DatePartsAt(s, k, e, 1, 2)
    || DatePartsAt(s, k, e, 2, 1) || DatePartsAt(s, k, e, 2, 2)
  }

  /** The date pattern at `k`; the end of the match (the last part is greedy up to 4 digits). */
  function DateAt(s: string, k: nat): (r: Option<nat>)
    ensures r.Some? ==> k < r.value <= |s| && IsDigit(s[k])
  {
    match DigitsThenSep(s, k)
    case None => None
    case Some(k1) =>
      match DigitsThenSep(s, k1)
      case None => None
      case Some(k2) =>
        var e := RunEnd(s, k2, Digit);
        if e - k2 < 2 then None else Some(if e - k2 > 4 then k2 + 4 else e)
  }

  /** A date shape at `k` fixes how `DateAt` splits it, and `DateAt` reaches at least its end. */
  lemma DatePartsForced(s: string, k: nat, e: nat, a: nat, b: nat)
    requires DatePartsAt(s, k, e, a, b)
    ensures DateAt(s, k).Some? && e <= DateAt(s, k).value
  {
    assert DigitsThenSep(s, k) == Some(k + a + 1);
    assert DigitsThenSep(s, k + a + 1) == Some(k + a + b + 2);
    RunEndCovers(s, k + a + b + 2, e, Digit);
  }

  /**
   * `DateAt` finds the longest date shape at `k`, and finds one
   * whenever there is one.
   */
  lemma DateAtLongest(s: string, k: nat)
    ensures DateAt(s, k).Some? ==> DateShapeAt(s, k, DateAt(s, k).value)
    ensures forall e: nat :: DateShapeAt(s, k, e) ==> DateAt(s, k).Some? && e <= DateAt(s, k).value
  {
    var d1 := DigitsThenSep(s, k);
    if d1.Some? {
      var d2 := DigitsThenSep(s, d1.value);
      if d2.Some? && DateAt(s, k).Some? {
        assert DatePartsAt(s, k, DateAt(s, k).value, d1.value - k - 1, d2.value - d1.value - 1);
      }
    }
    forall e: nat | DateShapeAt(s, k, e) ensures DateAt(s, k).Some? && e <= DateAt(s, k).value {
      if DatePartsAt(s, k, e, 1, 1) {
        DatePartsForced(s, k, e, 1, 1);
      } else if DatePartsAt(s, k, e, 1, 2) {
        DatePartsForced(s, k, e, 1, 2);
      } else if DatePartsAt(s, k, e, 2, 1) {
        DatePartsForced(s, k, e, 2, 1);
      } else {
        DatePartsForced(s, k, e, 2, 2);
      }
    }
  }

  /**
   * `Invoice Date[:\s]+` followed by a date, after the tag ends at `e`.
   * A date starts with a digit, so it can only start where the run of
   * `[:\s]` ends; there is no match exactly when no nonempty run of
   * `[:\s]` from `e` is followed by a date.
   */
  function DateAfter(s: string, e: nat): (r: Option<Span>)
    requires e <= |s|
    ensures r.Some? ==> e < r.value.lo < r.value.hi <= |s|
                        && AllIn(s, e, r.value.lo, ColonOrSpace)
                        && DateAt(s, r.value.lo) == Some(r.value.hi)
    ensures r.None? ==> forall u :: e < u <= |s| && AllIn(s, e, u, ColonOrSpace) ==> DateAt(s, u).None?
  {
    var m := RunEnd(s, e, ColonOrSpace);
    assert forall u :: e < u <= |s| && AllIn(s, e, u, ColonOrSpace) ==> u <= m by {
      forall u | e < u <= |s| && AllIn(s, e, u, ColonOrSpace) ensures u <= m {
        RunEndCovers(s, e, u, ColonOrSpace);
      }
    }
    if m == e then None
    else
      match DateAt(s, m)
      case None => None
      case Some(d) => Some(Span(m, d))
  }

  // ---------------------------------------------------------------- amounts

  /** The alternatives of the labelled-amount pattern, in the order the engine tries them. */
  const AmountLabels: seq<string> :=
    ["TOTAL PAY", "TOTAL PRICE", "GRAND TOTAL", "Total Amount", "Total amount",
     "Amount Payable", "Invoice Total"]

  /** `\.\d{2}` at `h`. */
  predicate CentsAt(s: string, h: nat) {
    h + 3 <= |s| && s[h] == '.' && IsDigit(s[h + 1]) && IsDigit(s[h + 2])
  }

  /**
   * Where `[\d,]+` starts in the group: after the optional currency sign
   * and the greedy `\s*`.  Neither can give characters back to
   * `[\d,]+`, which matches neither a sign nor a space.
   */
  function AmountNumberStart(s: string, g: nat): (n: nat)
    requires g <= |s|
    ensures g <= n <= |s| && (n == |s| || !IsSpace(s[n]))
    ensures if g < |s| && IsCurrency(s[g]) then g < n && AllIn(s, g + 1, n, Space) else AllIn(s, g, n, Space)
  {
    var g1 := if g < |s| && IsCurrency(s[g]) then g + 1 else g;
    RunEnd(s, g1, Space)
  }

  /** `s[g..e]` is `[\$₹]?\s*[\d,]+\.\d{2}`, the sign and spaces taken as the engine takes them. */
  predicate AmountGroupShape(s: string, g: nat, e: nat)
    requires g <= |s|
  {
    var n := AmountNumberStart(s, g);
    n + 4 <= e <= |s| && AllIn(s, n, e - 3, DigitOrComma) && CentsAt(s, e - 3)
  }

  /**
   * `[\$₹]?\s*[\d,]+\.\d{2}` at `g`; the end of the group.  `[\d,]+`
   * cannot give back a character that `\.` would match, so the digits
   * run is maximal; `AmountGroupAtComplete` shows the group is found
   * whenever it has the shape.
   */
  function AmountGroupAt(s: string, g: nat): (r: Option<nat>)
    requires g <= |s|
    ensures r.Some? ==> AmountGroupShape(s, g, r.value)
  {
    var n := AmountNumberStart(s, g);
    var h := RunEnd(s, n, DigitOrComma);
    if h > n && CentsAt(s, h) then Some(h + 3) else None
  }

  /** An amount group of any shape at `g` is found, with its end. */
  lemma AmountGroupAtComplete(s: string, g: nat, e: nat)
    requires g <= |s| && AmountGroupShape(s, g, e)
    ensures AmountGroupAt(s, g) == Some(e)
  {
    RunEndCovers(s, AmountNumberStart(s, g), e - 3, DigitOrComma);
  }

  /**
   * The largest position in `[lo, g]` at which `at` finds a match, with
   * the end of that match: a greedy quantifier that ran up to `g` gives
   * characters back one at a time, down to `lo`, until what follows it
   * matches.
   */
  function LastHit(at: nat -> Option<nat>, lo: nat, g: nat): (r: Option<Span>)
    requires lo <= g
    ensures r.Some? ==> lo <= r.value.lo <= g && at(r.value.lo) == Some(r.value.hi)
    decreases g - lo
  {
    if at(g).Some? then Some(Span(g, at(g).value))
    else if g == lo then None
    else LastHit(at, lo, g - 1)
  }

  /** Wherever in `[lo, g]` `at` finds a match, LastHit finds one, starting there or later. */
  lemma {:induction false} LastHitIsLast(at: nat -> Option<nat>, lo: nat, g: nat, h: nat)
    requires lo <= h <= g && at(h).Some?
    ensures LastHit(at, lo, g).Some? && h <= LastHit(at, lo, g).value.lo
    decreases g - lo
  {
    if at(g).None? {
      LastHitIsLast(at, lo, g - 1, h);
    }
  }

  /** AmountGroupAt at every position, with no group past the end of the text. */
  function AmountGroups(s: string): nat -> Option<nat> {
    (h: nat) => if h <= |s| then AmountGroupAt(s, h) else None
  }

  /**
   * `[^\d]*` ran greedily up to `g` and gives characters back down to
   * `lo`: the amount group starts at the largest position in `[lo, g]`
   * where it can.
   */
  function LastAmountGroup(s: string, lo: nat, g: nat): (r: Option<Span>)
    requires lo <= g <= |s|
    ensures r.Some? ==> lo <= r.value.lo <= g && AmountGroupAt(s, r.value.lo) == Some(r.value.hi)
    ensures r.Some? ==> r.value.lo < r.value.hi <= |s|
  {
    LastHit(AmountGroups(s), lo, g)
  }

  /** Wherever in `[lo, g]` an amount group starts, LastAmountGroup finds one, starting there or later. */
  lemma LastAmountGroupIsLast(s: string, lo: nat, g: nat, h: nat)
    requires lo <= h <= g <= |s| && AmountGroupAt(s, h).Some?
    ensures LastAmountGroup(s, lo, g).Some? && h <= LastAmountGroup(s, lo, g).value.lo
  {
    LastHitIsLast(AmountGroups(s), lo, g, h);
  }

  /**
   * `[^\d]*([\$₹]?\s*[\d,]+\.\d{2})` once a tag has ended at `e`: the
   * group starts at the last position that only non-digits separate
   * from `e` and at which the amount group matches.
   */
  function AmountAfterLabel(s: string, e: nat): (r: Option<Span>)
    requires e <= |s|
    ensures r.Some? ==> e <= r.value.lo < r.value.hi <= |s| && AllIn(s, e, r.value.lo, NonDigit)
                        && AmountGroupAt(s, r.value.lo) == Some(r.value.hi)
    ensures r.Some? ==> forall h :: r.value.lo < h <= |s| && AllIn(s, e, h, NonDigit) ==> AmountGroupAt(s, h).None?
    ensures r.None? ==> forall h :: e <= h <= |s| && AllIn(s, e, h, NonDigit) ==> AmountGroupAt(s, h).None?
  {
    var f := RunEnd(s, e, NonDigit);
    assert forall h :: e <= h <= |s| && AllIn(s, e, h, NonDigit) ==> h <= f by {
      forall h | e <= h <= |s| && AllIn(s, e, h, NonDigit) ensures h <= f {
        RunEndCovers(s, e, h, NonDigit);
      }
    }
    assert forall h :: e <= h <= f && AmountGroupAt(s, h).Some? ==>
        LastAmountGroup(s, e, f).Some? && h <= LastAmountGroup(s, e, f).value.lo by {
      forall h | e <= h <= f && AmountGroupAt(s, h).Some?
        ensures LastAmountGroup(s, e, f).Some? && h <= LastAmountGroup(s, e, f).value.lo
      {
        LastAmountGroupIsLast(s, e, f, h);
      }
    }
    LastAmountGroup(s, e, f)
  }

  /** Where label `j` of the alternation ends when it matches at `p`. */
  function LabelEnd(s: string, p: nat, j: nat): (e: nat)
    requires j < |AmountLabels| && LiteralAt(s, p, AmountLabels[j])
    ensures p <= e <= |s|
  {
    p + |AmountLabels[j]|
  }

  /** Label `j` of the alternation matches at `p` and is followed by an amount. */
  predicate LabelHasAmount(s: string, p: nat, j: nat)
    requires j < |AmountLabels|
  {
    LiteralAt(s, p, AmountLabels[j]) && AmountAfterLabel(s, LabelEnd(s, p, j)).Some?
  }

  /** The first `j` in `[i, n)` at which `hit` holds, or `n`: an alternation tries its branches in order. */
  function FirstHit(hit: nat -> bool, i: nat, n: nat): (j: nat)
    requires i <= n
    ensures i <= j <= n
    ensures j < n ==> hit(j)
    ensures forall j' :: i <= j' < j ==> !hit(j')
    decreases n - i
  {
    if i == n || hit(i) then i else FirstHit(hit, i + 1, n)
  }

  /** Which labels of the alternation match at `p` and are followed by an amount. */
  function LabelHits(s: string, p: nat): nat -> bool {
    (j: nat) => j < |AmountLabels| && LabelHasAmount(s, p, j)
  }

  /** The first label that matches at `p` and is followed by an amount, or `|AmountLabels|`. */
  function FirstLabel(s: string, p: nat): (j: nat)
    ensures j <= |AmountLabels|
    ensures j < |AmountLabels| ==> LabelHasAmount(s, p, j)
    ensures forall j' :: 0 <= j' < j ==> !LabelHasAmount(s, p, j')
  {
    var hits := LabelHits(s, p);
    var j := FirstHit(hits, 0, |AmountLabels|);
    assert forall j' :: 0 <= j' < j ==> !LabelHasAmount(s, p, j') by {
      forall j' | 0 <= j' < j ensures !LabelHasAmount(s, p, j') {
        assert !hits(j');
      }
    }
    j
  }

  /**
   * The label alternation with the rest of the pattern at `p`: the
   * engine tries the labels in list order and keeps the first one
   * followed by an amount; there is no match when no label is.
   */
  function AmountFrom(s: string, p: nat): (r: Option<Span>)
    ensures r.None? ==> forall j :: 0 <= j < |AmountLabels| ==> !LabelHasAmount(s, p, j)
    ensures r.Some? ==> p <= r.value.lo < r.value.hi <= |s|
    ensures r.Some? ==> FirstLabel(s, p) < |AmountLabels|
                        && r == AmountAfterLabel(s, LabelEnd(s, p, FirstLabel(s, p)))
  {
    var j := FirstLabel(s, p);
    if j < |AmountLabels| then AmountAfterLabel(s, LabelEnd(s, p, j)) else None
  }

  /** The group of a labelled-amount match is an amount group. */
  lemma LabeledGroupShape(s: string, p: nat, g: Span)
    requires MatchAt(LabeledAmount, s, p) == Some(g)
    ensures g.lo <= |s| && AmountGroupShape(s, g.lo, g.hi)
  {
    MatchAtLabeledAmount(s, p);
    AmountFromShape(s, p, g);
  }

  /** The labelled-amount pattern is matched by AmountFrom. */
  lemma MatchAtLabeledAmount(s: string, p: nat)
    ensures MatchAt(LabeledAmount, s, p) == AmountFrom(s, p)
  {
  }

  /** The span AmountFrom captures is an amount group. */
  lemma AmountFromShape(s: string, p: nat, g: Span)
    requires AmountFrom(s, p) == Some(g)
    ensures g.lo <= |s| && AmountGroupShape(s, g.lo, g.hi)
  {
  }

  /** `s[p..e]` is `\d[\d,]*\.\d{2}`. */
  predicate DecimalShape(s: string, p: nat, e: nat) {
    p + 4 <= e <= |s| && IsDigit(s[p]) && AllIn(s, p, e - 3, DigitOrComma) && CentsAt(s, e - 3)
  }

  /**
   * `\d[\d,]*\.\d{2}` at `p` (the whole match is the group).  The
   * shape is unique, since `[\d,]*` cannot give back a character `\.`
   * matches; `DecimalAtComplete` shows it is found whenever it is there.
   */
  function DecimalAt(s: string, p: nat): (r: Option<Span>)
    ensures r.Some? ==> r.value.lo == p && DecimalShape(s, p, r.value.hi)
  {
    if p < |s| && IsDigit(s[p]) then
      var h := RunEnd(s, p, DigitOrComma);
      if CentsAt(s, h) then Some(Span(p, h + 3)) else None
    else None
  }

  /** A decimal of any shape at `p` is found, with its end. */
  lemma DecimalAtComplete(s: string, p: nat, e: nat)
    requires DecimalShape(s, p, e)
    ensures DecimalAt(s, p) == Some(Span(p, e))
  {
    RunEndCovers(s, p, e - 3, DigitOrComma);
  }

  // ---------------------------------------------------------------- matching and searching

  /** The captured group of `pat` when `pat` matches at `p`; every group is nonempty. */
  function MatchAt(pat: Pattern, s: string, p: nat): (r: Option<Span>)
    ensures r.Some? ==> p <= r.value.lo < r.value.hi <= |s|
  {
    match pat
    case VendorLabel(tag) => VendorAt(s, p, tag)
    case NumberLabel(tag) =>
      if LiteralAt(s, p, tag) then TokenAfter(s, p + |tag|) else None
    case InvDotNo =>
      (match InvDotNoEnd(s, p)
       case None => None
       case Some(e) => TokenAfter(s, e))
    case LabeledDate =>
      if LiteralAt(s, p, "Invoice Date") then DateAfter(s, p + |"Invoice Date"|) else None
    case Date =>
      (match DateAt(s, p)
       case None => None
       case Some(e) => Some(Span(p, e)))
    case LabeledAmount => AmountFrom(s, p)
    case Decimal => DecimalAt(s, p)
  }

  /**
   * What `pat` captures at each position of `s`, in one table; the
   * searches below read only this table.  No match starts at `|s|`,
   * since every group is nonempty.
   */
  function Table(pat: Pattern, s: string): (m: seq<Option<Span>>)
    ensures |m| == |s| && WellFormed(m)
    ensures forall p :: 0 <= p < |s| ==> m[p] == MatchAt(pat, s, p)
  {
    seq(|s|, p requires 0 <= p < |s| => MatchAt(pat, s, p))
  }

  /** Every entry of a table is a span that starts at or after its position and ends within the text. */
  predicate WellFormed(m: seq<Option<Span>>) {
    forall p :: 0 <= p < |m| && m[p].Some? ==> p <= m[p].value.lo < m[p].value.hi <= |m|
  }

  /** The first position at or after `from` whose entry in `m` is a match. */
  function First(m: seq<Option<Span>>, from: nat): (r: Option<nat>)
    ensures r.Some? ==> from <= r.value < |m| && m[r.value].Some?
    ensures r.Some? ==> forall q :: from <= q < r.value ==> m[q].None?
    ensures r.None? ==> forall q :: from <= q < |m| ==> m[q].None?
    decreases |m| - from
  {
    if from >= |m| then None
    else if m[from].Some? then Some(from)
    else First(m, from + 1)
  }

  /** `re.search`: the leftmost position at or after `from` where `pat` matches. */
  function Search(pat: Pattern, s: string, from: nat): (r: Option<nat>)
    ensures r.Some? ==> from <= r.value < |s| && MatchAt(pat, s, r.value).Some?
    ensures r.Some? ==> forall q: nat :: from <= q < r.value ==> MatchAt(pat, s, q).None?
    ensures r.None? ==> forall q: nat :: from <= q ==> MatchAt(pat, s, q).None?
  {
    First(Table(pat, s), from)
  }

  /** The captured text of the leftmost match, when there is one. */
  function SearchGroup(pat: Pattern, s: string): (r: Option<string>)
    ensures r.Some? <==> exists q: nat :: MatchAt(pat, s, q).Some?
  {
    match Search(pat, s, 0)
    case None => None
    case Some(p) =>
      var g := MatchAt(pat, s, p).value;
      Some(s[g.lo..g.hi])
  }

  /** One match reported by `FindAll`: where it starts and what it captured. */
  datatype Hit = Hit(at: nat, group: Span)

  /** The matches of a table from `from` on, each search resuming where the previous match ended. */
  function Scan(m: seq<Option<Span>>, from: nat): (hits: seq<Hit>)
    requires WellFormed(m)
    ensures forall i :: 0 <= i < |hits| ==> from <= hits[i].at < |m| && m[hits[i].at] == Some(hits[i].group)
    decreases |m| - from
  {
    match First(m, from)
    case None => []
    case Some(p) =>
      var g := m[p].value;
      [Hit(p, g)] + Scan(m, g.hi)
  }

  lemma {:induction false} ScanDisjoint(m: seq<Option<Span>>, from: nat, i: nat, j: nat)
    requires WellFormed(m) && i < j < |Scan(m, from)|
    ensures Scan(m, from)[i].group.hi <= Scan(m, from)[j].at
    decreases |m| - from
  {
    var p := First(m, from).value;
    var g := m[p].value;
    var rest := Scan(m, g.hi);
    assert Scan(m, from) == [Hit(p, g)] + rest;
    if i > 0 {
      ScanDisjoint(m, g.hi, i - 1, j - 1);
    } else {
      assert Scan(m, from)[j] == rest[j - 1];
    }
  }

  /** The hit of `Scan(m, from)` that covers the match at `q`. */
  lemma {:induction false} ScanComplete(m: seq<Option<Span>>, from: nat, q: nat) returns (i: nat)
    requires WellFormed(m) && from <= q < |m| && m[q].Some?
    ensures i < |Scan(m, from)| && Scan(m, from)[i].at <= q < Scan(m, from)[i].group.hi
    decreases |m| - from
  {
    var p := First(m, from).value;
    var g := m[p].value;
    var rest := Scan(m, g.hi);
    var hits := Scan(m, from);
    assert hits == [Hit(p, g)] + rest;
    if q >= g.hi {
      var k := ScanComplete(m, g.hi, q);
      assert hits[k + 1] == rest[k];
      i := k + 1;
    } else {
      assert hits[0] == Hit(p, g);
      i := 0;
    }
  }

  /**
   * `re.findall`: the matches from left to right, each search resuming
   * where the previous match ended.
   */
  function FindAll(pat: Pattern, s: string, from: nat): (hits: seq<Hit>)
    ensures forall i :: 0 <= i < |hits| ==> from <= hits[i].at && MatchAt(pat, s, hits[i].at) == Some(hits[i].group)
  {
    Scan(Table(pat, s), from)
  }

  /** The reported matches do not overlap: each starts at or after the end of every earlier one. */
  lemma FindAllDisjoint(pat: Pattern, s: string, from: nat, i: nat, j: nat)
    requires i < j < |FindAll(pat, s, from)|
    ensures FindAll(pat, s, from)[i].group.hi <= FindAll(pat, s, from)[j].at
  {
    ScanDisjoint(Table(pat, s), from, i, j);
  }

  /** Nothing is skipped: every position at which `pat` matches lies inside a reported match. */
  lemma FindAllComplete(pat: Pattern, s: string, from: nat, q: nat)
    requires from <= q && MatchAt(pat, s, q).Some?
    ensures exists i :: 0 <= i < |FindAll(pat, s, from)|
                        && FindAll(pat, s, from)[i].at <= q < FindAll(pat, s, from)[i].group.hi
  {
    var m := Table(pat, s);
    assert FindAll(pat, s, from) == Scan(m, from);
    var i := ScanComplete(m, from, q);
    assert FindAll(pat, s, from)[i].at <= q < FindAll(pat, s, from)[i].group.hi;
  }

  /** The captured texts of `re.findall`, in order. */
  function FindAllGroups(pat: Pattern, s: string): (r: seq<string>)
    ensures |r| == |FindAll(pat, s, 0)|
    ensures forall i :: 0 <= i < |r| ==>
              var g := FindAll(pat, s, 0)[i].group; g.lo <= g.hi <= |s| && r[i] == s[g.lo..g.hi]
  {
    var hits := FindAll(pat, s, 0);
    seq(|hits|, i requires 0 <= i < |hits| => s[hits[i].group.lo..hits[i].group.hi])
  }
}
