/**
 * The field extractor: vendor, invoice number, invoice date and total
 * amount, each found in the OCR text of one invoice by its own ordered
 * chain of fallbacks, and the record of all four.
 *
 * The three extractors that loop in the source are methods, each proved
 * equal to a specification function (`VendorOf`, `InvoiceNumberOf`,
 * `TotalAmountOf`); the lemmas below state what those functions promise.
 */
module InvoiceParser {
  import opened Wrappers
  import opened Text
  import opened Patterns

  /** The leftmost match position of each pattern of `pats`, as `re.search` finds it. */
  function Searches(pats: seq<Pattern>, s: string): (r: seq<Option<nat>>)
    ensures |r| == |pats|
    ensures forall k :: 0 <= k < |pats| ==> r[k] == Search(pats[k], s, 0)
  {
    seq(|pats|, k requires 0 <= k < |pats| => Search(pats[k], s, 0))
  }

  /**
   * The first search from `i` on, in list order, that found a match, or
   * `|found|` when none did: each chain of `re.search` calls stops at its
   * first hit.
   */
  function FirstSome(found: seq<Option<nat>>, i: nat): (k: nat)
    requires i <= |found|
    ensures i <= k <= |found|
    ensures k < |found| ==> found[k].Some?
    ensures forall k' :: i <= k' < k ==> found[k'].None?
    decreases |found| - i
  {
    if i == |found| || found[i].Some? then i else FirstSome(found, i + 1)
  }

  // ================================================================ vendor

  /** The label patterns tried, in this order, when no "sold by" window yields a vendor. */
  const VendorPatterns: seq<Pattern> :=
    [VendorLabel("Vendor"), VendorLabel("Supplier"), VendorLabel("Company Name"), VendorLabel("Bill From")]

  predicate IsSoldByLine(line: string) {
    Contains(Lower(line), "sold by")
  }

  predicate IsAddressLabel(candidate: string) {
    Contains(Lower(candidate), "billing address") || Contains(Lower(candidate), "shipping address")
  }

  /** A line the "sold by" window accepts: not blank, and not an address label once stripped. */
  predicate IsVendorLine(line: string) {
    Strip(line) != [] && !IsAddressLabel(Strip(line))
  }

  /** The exclusive end of the window below "sold by" line `i`: lines `i+1` to `i+4`, blank ones included. */
  function WindowEnd(i: nat, n: nat): nat {
    if i + 5 < n then i + 5 else n
  }

  /** The first acceptable line among `lines[j..hi]`, or `hi` when there is none. */
  function WindowIndex(lines: seq<string>, j: nat, hi: nat): (k: nat)
    requires j <= hi <= |lines|
    ensures j <= k <= hi
    ensures k < hi ==> IsVendorLine(lines[k])
    ensures forall k' :: j <= k' < k ==> !IsVendorLine(lines[k'])
    decreases hi - j
  {
    if j == hi || IsVendorLine(lines[j]) then j else WindowIndex(lines, j + 1, hi)
  }

  /** What the window below "sold by" line `i` yields: its first acceptable line, stripped. */
  function SoldByWindow(lines: seq<string>, i: nat): Option<string>
    requires i < |lines|
  {
    var hi := WindowEnd(i, |lines|);
    var k := WindowIndex(lines, i + 1, hi);
    if k < hi then Some(Strip(lines[k])) else None
  }

  /** A "sold by" line whose window yields a vendor. */
  predicate SoldByHit(lines: seq<string>, i: nat)
    requires i < |lines|
  {
    IsSoldByLine(lines[i]) && SoldByWindow(lines, i).Some?
  }

  /**
   * The sold-by scan from line `i` on: the first "sold by" line whose
   * window yields something, or `|lines|`; a window that yields nothing
   * passes the scan on to the next "sold by" line.
   */
  function SoldByIndex(lines: seq<string>, i: nat): (k: nat)
    requires i <= |lines|
    ensures i <= k <= |lines|
    ensures k < |lines| ==> SoldByHit(lines, k)
    ensures forall k' :: i <= k' < k ==> !SoldByHit(lines, k')
    decreases |lines| - i
  {
    if i == |lines| || SoldByHit(lines, i) then i else SoldByIndex(lines, i + 1)
  }

  /** `match.group(1).strip()` followed by `line.split("\n")[0].strip()`. */
  function LabelText(group: string): string {
    Strip(BeforeFirst(Strip(group), '\n'))
  }

  /** A captured line holds no '\n', so the second strip changes nothing. */
  lemma LabelTextOfLine(group: string)
    requires '\n' !in group
    ensures LabelText(group) == Strip(group)
  {
    var t := Strip(group);
    assert forall i :: 0 <= i < |t| ==> t[i] == group[LeadingSpaces(group) + i];
    assert BeforeFirst(t, '\n') == t;
    StripIdempotent(group);
  }

  /** The group of `[:\s]+(.+)` is one line. */
  lemma VendorGroupIsLine(s: string, pat: Pattern)
    requires pat.VendorLabel?
    ensures SearchGroup(pat, s).Some? ==> '\n' !in SearchGroup(pat, s).value
  {
    var found := Search(pat, s, 0);
    if found.Some? {
      var g := MatchAt(pat, s, found.value).value;
      var t := s[g.lo..g.hi];
      assert forall i :: g.lo <= i < g.hi ==> s[i] != '\n';
      assert forall i :: 0 <= i < |t| ==> t[i] == s[g.lo + i];
    }
  }

  /**
   * What the label fallback yields: the captured line of the first
   * pattern that matches, stripped; it may be the empty string.
   */
  function LabelVendor(s: string): (r: Option<string>)
    ensures r.Some? <==> FirstSome(Searches(VendorPatterns, s), 0) < |VendorPatterns|
    ensures r.Some? ==> r.value == Strip(SearchGroup(VendorPatterns[FirstSome(Searches(VendorPatterns, s), 0)], s).value)
  {
    var k := FirstSome(Searches(VendorPatterns, s), 0);
    if k < |VendorPatterns| then
      var g := SearchGroup(VendorPatterns[k], s).value;
      VendorGroupIsLine(s, VendorPatterns[k]);
      LabelTextOfLine(g);
      Some(LabelText(g))
    else None
  }

  /** The label fallback yields the text of the first label pattern that matches. */
  lemma LabelVendorOf(s: string, k: nat, group: string)
    requires k < |VendorPatterns| && Search(VendorPatterns[k], s, 0).Some?
    requires forall k' :: 0 <= k' < k ==> Search(VendorPatterns[k'], s, 0).None?
    requires group == SearchGroup(VendorPatterns[k], s).value
    ensures LabelVendor(s) == Some(LabelText(group))
  {
    assert FirstSome(Searches(VendorPatterns, s), 0) == k;
  }

  /** The first line from `i` on that is not blank, or `|lines|`. */
  function NonBlankIndex(lines: seq<string>, i: nat): (k: nat)
    requires i <= |lines|
    ensures i <= k <= |lines|
    ensures k < |lines| ==> Strip(lines[k]) != []
    ensures forall k' :: i <= k' < k ==> Strip(lines[k']) == []
    decreases |lines| - i
  {
    if i == |lines| || Strip(lines[i]) != [] then i else NonBlankIndex(lines, i + 1)
  }

  /** `extract_vendor`: the sold-by scan, then the label patterns, then the first non-blank line. */
  function VendorOf(s: string): Option<string> {
    var lines := SplitLines(s);
    var i := SoldByIndex(lines, 0);
    if i < |lines| then SoldByWindow(lines, i)
    else if LabelVendor(s).Some? then LabelVendor(s)
    else
      var b := NonBlankIndex(lines, 0);
      if b < |lines| then Some(Strip(lines[b])) else None
  }

  /** `extract_vendor`: each fallback runs only when the ones before it have found nothing. */
  method ExtractVendor(text: string) returns (r: Option<string>)
    ensures r == VendorOf(text)
  {
    var lines := SplitLines(text);
    r := ScanSoldBy(lines);
    if r.None? {
      r := ScanLabels(text);
      if r.None? {
        r := ScanNonBlank(lines);
      }
    }
  }

  /** The sold-by scan of `extract_vendor`. */
  method ScanSoldBy(lines: seq<string>) returns (r: Option<string>)
    ensures var i := SoldByIndex(lines, 0);
            r == if i < |lines| then SoldByWindow(lines, i) else None
  {
    for i := 0 to |lines|
      invariant forall k :: 0 <= k < i ==> !SoldByHit(lines, k)
    {
      if Contains(Lower(lines[i]), "sold by") {
        r := ScanWindow(lines, i);
        if r.Some? {
          assert SoldByHit(lines, i);
          assert SoldByIndex(lines, 0) == i;
          return;
        }
      }
    }
    assert SoldByIndex(lines, 0) == |lines|;
    return None;
  }

  /** The look at the four lines below "sold by" line `i`. */
  method ScanWindow(lines: seq<string>, i: nat) returns (r: Option<string>)
    requires i < |lines|
    ensures r == SoldByWindow(lines, i)
  {
    var hi := WindowEnd(i, |lines|);
    for j := i + 1 to hi
      invariant forall k :: i + 1 <= k < j ==> !IsVendorLine(lines[k])
    {
      var candidate := Strip(lines[j]);
      if candidate == [] {
        continue;
      }
      var lowerCand := Lower(candidate);
      if Contains(lowerCand, "billing address") || Contains(lowerCand, "shipping address") {
        continue;
      }
      assert WindowIndex(lines, i + 1, hi) == j;
      return Some(candidate);
    }
    assert WindowIndex(lines, i + 1, hi) == hi;
    return None;
  }

  /** The label fallback of `extract_vendor`. */
  method ScanLabels(text: string) returns (r: Option<string>)
    ensures r == LabelVendor(text)
  {
    for k := 0 to |VendorPatterns|
      invariant forall k' :: 0 <= k' < k ==> Search(VendorPatterns[k'], text, 0).None?
    {
      var found := Search(VendorPatterns[k], text, 0);
      if found.Some? {
        var g := MatchAt(VendorPatterns[k], text, found.value).value;
        var group := text[g.lo..g.hi];
        var line := Strip(group);
        assert Searches(VendorPatterns, text)[k].Some?;
        LabelVendorOf(text, k, group);
        return Some(Strip(BeforeFirst(line, '\n')));
      }
    }
    assert FirstSome(Searches(VendorPatterns, text), 0) == |VendorPatterns|;
    return None;
  }

  /** The last fallback of `extract_vendor`. */
  method ScanNonBlank(lines: seq<string>) returns (r: Option<string>)
    ensures var b := NonBlankIndex(lines, 0);
            r == if b < |lines| then Some(Strip(lines[b])) else None
  {
    for i := 0 to |lines|
      invariant forall k :: 0 <= k < i ==> Strip(lines[k]) == []
    {
      var line := Strip(lines[i]);
      if line != [] {
        assert NonBlankIndex(lines, 0) == i;
        return Some(line);
      }
    }
    assert NonBlankIndex(lines, 0) == |lines|;
    return None;
  }

  /** No label pattern matches a text that is all whitespace. */
  lemma NoLabelInBlankText(s: string, k: nat)
    requires AllSpace(s) && k < |VendorPatterns|
    ensures SearchGroup(VendorPatterns[k], s).None?
  {
    var pat := VendorPatterns[k];
    if q: nat :| MatchAt(pat, s, q).Some? {
      LiteralAtNonSpace(s, q, pat.tag);
    }
  }

  /**
   * The vendor is None exactly when every line is blank; a text with a
   * non-blank line always yields a vendor, though the label fallback
   * may make it the empty string.
   */
  lemma VendorNoneIff(s: string)
    ensures VendorOf(s).None? <==> AllBlank(SplitLines(s))
  {
    if AllBlank(SplitLines(s)) {
      NoVendorInBlankText(s);
    } else {
      VendorInNonBlankText(s);
    }
  }

  /** A text with a non-blank line has a vendor: the last fallback finds that line if nothing before does. */
  lemma VendorInNonBlankText(s: string)
    requires !AllBlank(SplitLines(s))
    ensures VendorOf(s).Some?
  {
    var lines := SplitLines(s);
    if SoldByIndex(lines, 0) == |lines| && LabelVendor(s).None? {
      assert NonBlankIndex(lines, 0) < |lines|;
    }
  }

  /** A text whose every line is blank has no vendor: no window line, no label and no non-blank line. */
  lemma NoVendorInBlankText(s: string)
    requires AllBlank(SplitLines(s))
    ensures VendorOf(s).None?
  {
    var lines := SplitLines(s);
    assert forall k :: 0 <= k < |lines| ==> !IsVendorLine(lines[k]);
    assert forall i :: 0 <= i < |lines| ==> SoldByWindow(lines, i).None?;
    AllLinesBlankIff(s);
    if FirstSome(Searches(VendorPatterns, s), 0) < |VendorPatterns| {
      NoLabelInBlankText(s, FirstSome(Searches(VendorPatterns, s), 0));
    }
  }

  /** A found vendor has no whitespace at either end, whichever fallback found it. */
  lemma VendorIsStripped(s: string)
    ensures VendorOf(s).Some? ==> IsStripped(VendorOf(s).value)
  {
    var lines := SplitLines(s);
    var i := SoldByIndex(lines, 0);
    if i < |lines| {
      var hi := WindowEnd(i, |lines|);
      var k := WindowIndex(lines, i + 1, hi);
      if k < hi {
        assert VendorOf(s) == Some(Strip(lines[k]));
      }
    } else if LabelVendor(s).Some? {
      assert VendorOf(s) == LabelVendor(s);
    } else {
      var b := NonBlankIndex(lines, 0);
      if b < |lines| {
        assert VendorOf(s) == Some(Strip(lines[b]));
      }
    }
  }

  /**
   * The first "sold by" line whose window yields something decides the
   * vendor: the first line of the four below it that is neither blank
   * nor an address label, stripped.
   */
  lemma VendorFromSoldBy(s: string, i: nat)
    requires i < |SplitLines(s)| && SoldByHit(SplitLines(s), i)
    requires forall k :: 0 <= k < i ==> !SoldByHit(SplitLines(s), k)
    ensures var lines := SplitLines(s);
            var j := WindowIndex(lines, i + 1, WindowEnd(i, |lines|));
            i < j <= i + 4 && j < |lines| && IsVendorLine(lines[j])
            && (forall j' :: i < j' < j ==> !IsVendorLine(lines[j']))
            && VendorOf(s) == Some(Strip(lines[j]))
  {
    var lines := SplitLines(s);
    assert SoldByIndex(lines, 0) == i;
  }

  /** The patterns before the first one the chain of searches stops at match nowhere in the text. */
  lemma EarlierPatternsMatchNowhere(pats: seq<Pattern>, s: string, k': nat, q: nat)
    requires k' < FirstSome(Searches(pats, s), 0)
    ensures k' < |pats| && MatchAt(pats[k'], s, q).None?
  {
    assert Searches(pats, s)[k'].None?;
  }

  /**
   * Without a "sold by" window that yields something, the label patterns
   * are tried in list order wherever they occur in the text: the first
   * one that matches anywhere gives the vendor (the earlier ones match
   * nowhere), and only when none matches is it the first non-blank line.
   */
  lemma VendorFromLabels(s: string)
    requires forall i :: 0 <= i < |SplitLines(s)| ==> !SoldByHit(SplitLines(s), i)
    ensures var k := FirstSome(Searches(VendorPatterns, s), 0);
            k < |VendorPatterns| ==> VendorOf(s) == Some(Strip(SearchGroup(VendorPatterns[k], s).value))
    ensures var lines := SplitLines(s);
            var b := NonBlankIndex(lines, 0);
            FirstSome(Searches(VendorPatterns, s), 0) == |VendorPatterns| ==>
              VendorOf(s) == if b < |lines| then Some(Strip(lines[b])) else None
  {
    assert SoldByIndex(SplitLines(s), 0) == |SplitLines(s)|;
  }

  // ================================================================ invoice number

  /** The invoice-number patterns, tried in this order. */
  const NumberPatterns: seq<Pattern> :=
    [NumberLabel("Invoice Number"), NumberLabel("Invoice No"), InvDotNo, NumberLabel("Invoice #")]

  /** The group of an invoice-number pattern: a nonempty run of `[\w-]` that the text does not continue. */
  predicate IsNumberToken(s: string, g: Span) {
    g.lo < g.hi <= |s| && AllIn(s, g.lo, g.hi, TokenChar) && (g.hi == |s| || !In(s[g.hi], TokenChar))
  }

  /** Every invoice-number pattern captures a token, which `.strip()` leaves as it is. */
  lemma NumberGroupIsToken(s: string, pat: Pattern, p: nat)
    requires pat in NumberPatterns && MatchAt(pat, s, p).Some?
    ensures IsNumberToken(s, MatchAt(pat, s, p).value)
    ensures var g := MatchAt(pat, s, p).value; Strip(s[g.lo..g.hi]) == s[g.lo..g.hi]
  {
    if pat == InvDotNo {
      assert MatchAt(pat, s, p) == TokenAfter(s, InvDotNoEnd(s, p).value);
    } else {
      assert pat.NumberLabel?;
      assert MatchAt(pat, s, p) == TokenAfter(s, p + |pat.tag|);
    }
    TokenIsStripped(s, MatchAt(pat, s, p).value);
  }

  /** A run of `[\w-]` holds no whitespace, so `.strip()` leaves it as it is. */
  lemma TokenIsStripped(s: string, g: Span)
    requires g.lo <= g.hi <= |s| && AllIn(s, g.lo, g.hi, TokenChar)
    ensures Strip(s[g.lo..g.hi]) == s[g.lo..g.hi]
  {
    var t := s[g.lo..g.hi];
    assert forall i :: 0 <= i < |t| ==> t[i] == s[g.lo + i] && In(t[i], TokenChar);
    StripNoSpace(t);
  }

  /** `extract_invoice_number`: the group of the first pattern that matches, stripped. */
  function InvoiceNumberOf(s: string): (r: Option<string>)
    ensures r.Some? ==> r.value != [] && IsStripped(r.value)
  {
    var k := FirstSome(Searches(NumberPatterns, s), 0);
    if k < |NumberPatterns| then
      var p := Search(NumberPatterns[k], s, 0).value;
      var g := MatchAt(NumberPatterns[k], s, p).value;
      NumberGroupIsToken(s, NumberPatterns[k], p);
      Some(Strip(s[g.lo..g.hi]))
    else None
  }

  /** `extract_invoice_number`: the patterns are searched in list order and the first hit is returned. */
  method ExtractInvoiceNumber(text: string) returns (r: Option<string>)
    ensures r == InvoiceNumberOf(text)
  {
    for i := 0 to |NumberPatterns|
      invariant forall k :: 0 <= k < i ==> Search(NumberPatterns[k], text, 0).None?
    {
      var found := Search(NumberPatterns[i], text, 0);
      if found.Some? {
        var g := MatchAt(NumberPatterns[i], text, found.value).value;
        InvoiceNumberOfFirst(text, i, g);
        return Some(Strip(text[g.lo..g.hi]));
      }
    }
    assert FirstSome(Searches(NumberPatterns, text), 0) == |NumberPatterns|;
    return None;
  }

  /** The first invoice-number pattern that matches gives the invoice number: its leftmost group, stripped. */
  lemma InvoiceNumberOfFirst(s: string, k: nat, g: Span)
    requires k < |NumberPatterns| && Search(NumberPatterns[k], s, 0).Some?
    requires forall k' :: 0 <= k' < k ==> Search(NumberPatterns[k'], s, 0).None?
    requires g == MatchAt(NumberPatterns[k], s, Search(NumberPatterns[k], s, 0).value).value
    ensures g.lo <= g.hi <= |s| && InvoiceNumberOf(s) == Some(Strip(s[g.lo..g.hi]))
  {
    assert FirstSome(Searches(NumberPatterns, s), 0) == k;
  }

  /** The invoice number is None exactly when no pattern matches anywhere in the text. */
  lemma InvoiceNumberNoneIff(s: string)
    ensures InvoiceNumberOf(s).None? <==>
              forall k, q: nat :: 0 <= k < |NumberPatterns| ==> MatchAt(NumberPatterns[k], s, q).None?
  {
    var k := FirstSome(Searches(NumberPatterns, s), 0);
    if k < |NumberPatterns| {
      var q := Search(NumberPatterns[k], s, 0).value;
      assert MatchAt(NumberPatterns[k], s, q).Some?;
    }
  }

  /**
   * A found invoice number is the group, unchanged by the strip, of the
   * leftmost match of the first pattern in list order that matches
   * anywhere: a nonempty run of word characters and '-' that the text
   * does not continue.
   */
  lemma InvoiceNumberIsToken(s: string)
    requires InvoiceNumberOf(s).Some?
    ensures var k := FirstSome(Searches(NumberPatterns, s), 0);
            k < |NumberPatterns|
            && var g := MatchAt(NumberPatterns[k], s, Search(NumberPatterns[k], s, 0).value).value;
               IsNumberToken(s, g) && InvoiceNumberOf(s).value == s[g.lo..g.hi]
  {
    var k := FirstSome(Searches(NumberPatterns, s), 0);
    var p := Search(NumberPatterns[k], s, 0).value;
    NumberGroupIsToken(s, NumberPatterns[k], p);
  }

  // ================================================================ invoice date

  /**
   * `extract_invoice_date`: the date right after the leftmost
   * "Invoice Date" label, else the leftmost date-shaped text, stripped.
   */
  function ExtractInvoiceDate(text: string): (r: Option<string>)
    ensures r.None? <==> forall q: nat :: MatchAt(LabeledDate, text, q).None? && MatchAt(Date, text, q).None?
    ensures r.Some? ==> IsStripped(r.value)
  {
    match SearchGroup(LabeledDate, text)
    case Some(d) => Some(Strip(d))
    case None =>
      match SearchGroup(Date, text)
      case Some(d) => Some(Strip(d))
      case None => None
  }

  /** A found date is always a date-shaped piece of the text. */
  lemma InvoiceDateIsDateShaped(s: string)
    ensures ExtractInvoiceDate(s).Some? ==>
              exists k: nat, e: nat :: k <= e <= |s| && DateShapeAt(s, k, e) && ExtractInvoiceDate(s).value == s[k..e]
  {
    var labeled := Search(LabeledDate, s, 0);
    if labeled.Some? {
      InvoiceDateLabelFirst(s, labeled.value);
    } else if Search(Date, s, 0).Some? {
      var k := Search(Date, s, 0).value;
      DateFallback(s, k);
      DateAtLongest(s, k);
    }
  }

  /** A matched date holds no whitespace, so `.strip()` leaves it as it is. */
  lemma DateGroupUnstripped(s: string, k: nat, e: nat)
    requires DateAt(s, k) == Some(e)
    ensures DateShapeAt(s, k, e) && Strip(s[k..e]) == s[k..e]
  {
    DateAtLongest(s, k);
    var t := s[k..e];
    assert forall i :: 0 <= i < |t| ==> IsDigit(t[i]) || IsDateSep(t[i]) by {
      forall i | 0 <= i < |t| ensures IsDigit(t[i]) || IsDateSep(t[i]) {
        assert t[i] == s[k + i];
        if DatePartsAt(s, k, e, 1, 1) {
        } else if DatePartsAt(s, k, e, 1, 2) {
        } else if DatePartsAt(s, k, e, 2, 1) {
        } else {
          assert DatePartsAt(s, k, e, 2, 2);
        }
      }
    }
    StripNoSpace(t);
  }

  /**
   * A date right after an "Invoice Date" label wins over any date that
   * comes earlier: the result is the date of the leftmost labelled match.
   */
  lemma InvoiceDateLabelFirst(s: string, p: nat)
    requires Search(LabeledDate, s, 0) == Some(p)
    ensures var g := MatchAt(LabeledDate, s, p).value;
            LiteralAt(s, p, "Invoice Date") && DateShapeAt(s, g.lo, g.hi)
            && ExtractInvoiceDate(s) == Some(s[g.lo..g.hi])
  {
    var g := MatchAt(LabeledDate, s, p).value;
    assert SearchGroup(LabeledDate, s) == Some(s[g.lo..g.hi]);
    DateGroupUnstripped(s, g.lo, g.hi);
  }

  /** Where the date pattern does not match, no date shape starts. */
  lemma NoDateShapeAt(s: string, k: nat)
    requires MatchAt(Date, s, k).None?
    ensures forall e: nat :: !DateShapeAt(s, k, e)
  {
    DateAtLongest(s, k);
  }

  /** Without a labelled date, the result is the text of the leftmost date match, stripped to itself. */
  lemma DateFallback(s: string, k: nat)
    requires Search(LabeledDate, s, 0).None? && Search(Date, s, 0) == Some(k)
    ensures DateAt(s, k).Some? && ExtractInvoiceDate(s) == Some(s[k..DateAt(s, k).value])
  {
    assert SearchGroup(LabeledDate, s).None?;
    assert SearchGroup(Date, s) == Some(s[k..DateAt(s, k).value]);
    DateGroupUnstripped(s, k, DateAt(s, k).value);
  }

  /**
   * Without a labelled date, the result is the leftmost date-shaped text
   * (with the longest last part), and None exactly when there is none.
   */
  lemma InvoiceDateLeftmost(s: string)
    requires forall q: nat :: MatchAt(LabeledDate, s, q).None?
    ensures ExtractInvoiceDate(s).None? <==> forall k: nat, e: nat :: !DateShapeAt(s, k, e)
    ensures ExtractInvoiceDate(s).Some? ==>
              exists k: nat, e: nat :: k <= e <= |s| && ExtractInvoiceDate(s).value == s[k..e]
                && DateShapeAt(s, k, e)
                && (forall k': nat, e': nat :: k' < k ==> !DateShapeAt(s, k', e'))
                && (forall e': nat :: e < e' ==> !DateShapeAt(s, k, e'))
  {
    assert Search(LabeledDate, s, 0).None?;
    var found := Search(Date, s, 0);
    if found.None? {
      assert ExtractInvoiceDate(s).None?;
      forall k: nat, e: nat ensures !DateShapeAt(s, k, e) {
        NoDateShapeAt(s, k);
      }
    } else {
      var k := found.value;
      DateFallback(s, k);
      var e := DateAt(s, k).value;
      DateAtLongest(s, k);
      forall k': nat, e': nat | k' < k ensures !DateShapeAt(s, k', e') {
        NoDateShapeAt(s, k');
      }
      assert ExtractInvoiceDate(s).value == s[k..e];
    }
  }

  /** The two separators are independent character classes: "24/09-2025" is a date. */
  lemma MixedSeparatorsAreADate()
    ensures DateShapeAt("24/09-2025", 0, 10)
  {
    var s := "24/09-2025";
    assert DigitsSep(s, 0, 2);
    assert DigitsSep(s, 3, 2);
    assert DatePartsAt(s, 0, 10, 2, 2);
  }

  // ================================================================ _to_float

  /** `d` is all `\d`. */
  predicate AllDigits(d: string) {
    AllIn(d, 0, |d|, Digit)
  }

  function Pow10(n: nat): nat {
    if n == 0 then 1 else 10 * Pow10(n - 1)
  }

  lemma Pow10Monotone(a: nat, b: nat)
    requires a <= b
    ensures Pow10(a) <= Pow10(b)
    decreases b
  {
    if a < b {
      Pow10Monotone(a, b - 1);
    }
  }

  /** The value of one decimal digit. */
  function DigitValue(c: char): nat
    requires IsDigit(c)
  {
    c as int - '0' as int
  }

  /** The value of a string of decimal digits. */
  function DigitsValue(d: string): nat
    requires AllDigits(d)
    decreases |d|
  {
    if d == [] then 0
    else
      var init := d[..|d| - 1];
      assert AllDigits(init) by {
        assert forall i :: 0 <= i < |init| ==> init[i] == d[i];
      }
      DigitsValue(init) * 10 + DigitValue(d[|d| - 1])
  }

  /** `n` digits stay below `10^n`. */
  lemma {:induction false} DigitsValueBound(d: string)
    requires AllDigits(d)
    ensures DigitsValue(d) < Pow10(|d|)
    decreases |d|
  {
    if d != [] {
      var init := d[..|d| - 1];
      assert AllDigits(init) by {
        assert forall i :: 0 <= i < |init| ==> init[i] == d[i];
      }
      DigitsValueBound(init);
    }
  }

  /** The cents of at most two digits after the point: ".5" is 50 cents, ".05" is 5. */
  function FractionCents(f: string): (c: nat)
    requires AllDigits(f) && |f| <= 2
    ensures c < 100
  {
    DigitsValueBound(f);
    if |f| == 2 then DigitsValue(f) else DigitsValue(f) * 10
  }

  /**
   * Python's `float(t)`, in cents, for the forms the extractor can hand it
   * once whitespace is stripped: digits, at most one '.', at most two
   * digits after it and at least one digit in all; every other form is
   * None here.
   */
  function ParseCents(t: string): (r: Option<nat>)
    ensures r.Some? ==> AllDigits(BeforeFirst(t, '.')) && r.value / 100 == DigitsValue(BeforeFirst(t, '.'))
    ensures r.Some? ==> r.value < Pow10(|BeforeFirst(t, '.')|) * 100
  {
    var i := IndexOf(t, '.', 0);
    DecimalValue(t[..i], if i < |t| then t[i + 1..] else [])
  }

  /**
   * The value in cents of `whole.frac`, when both parts are digits,
   * `frac` has at most two and they are not both empty: `whole` gives
   * the units and `frac` the cents, so the value stays below `10^n`
   * units for `n` digits in `whole`.
   */
  function DecimalValue(whole: string, frac: string): (r: Option<nat>)
    ensures r.Some? ==> AllDigits(whole) && AllDigits(frac) && |frac| <= 2 && |whole| + |frac| > 0
    ensures r.Some? ==> r.value / 100 == DigitsValue(whole) && r.value % 100 == FractionCents(frac)
    ensures r.Some? ==> r.value < Pow10(|whole|) * 100
  {
    if AllDigits(whole) && AllDigits(frac) && |frac| <= 2 && |whole| + |frac| > 0 then
      DigitsValueBound(whole);
      Some(DigitsValue(whole) * 100 + FractionCents(frac))
    else None
  }

  /** Stripping only takes whitespace off, so it cannot lengthen what comes before the first '.'. */
  lemma StripKeepsWholeShort(c: string)
    ensures |BeforeFirst(Strip(c), '.')| <= |BeforeFirst(c, '.')|
  {
    var a := LeadingSpaces(c);
    var t := Strip(c);
    var i := IndexOf(t, '.', 0);
    forall j | 0 <= j < a + i ensures c[j] != '.' {
      if j >= a {
        assert c[j] == t[j - a];
      }
    }
    assert IndexOf(c, '.', 0) >= a + i;
  }

  /**
   * `_to_float`: commas are dropped; a blank or lone-'.' string, or one
   * with more than six characters before its first '.', gives None; the
   * rest is parsed.  Every value it gives is below one million units.
   */
  function ToCents(numStr: string): (r: Option<nat>)
    ensures r.Some? ==> |BeforeFirst(Without(numStr, ','), '.')| <= 6 && r.value < 100_000_000
    ensures Strip(Without(numStr, ',')) == [] ==> r.None?
    ensures Strip(Without(numStr, ',')) == "." ==> r.None?
  {
    var cleaned := Without(numStr, ',');
    if Strip(cleaned) == [] || Strip(cleaned) == "." then None
    else if |BeforeFirst(cleaned, '.')| > 6 then None
    else
      var t := Strip(cleaned);
      StripKeepsWholeShort(cleaned);
      Pow10Monotone(|BeforeFirst(t, '.')|, 6);
      ParseCents(t)
  }

  /** `[\d,]*\.\d{2}`: digits and commas, then a point and exactly two digits. */
  predicate AmountShape(t: string) {
    |t| >= 3 && AllIn(t, 0, |t| - 3, DigitOrComma) && CentsAt(t, |t| - 3)
  }

  /** Dropping the commas from digits and commas leaves digits. */
  lemma {:induction false} WithoutCommasDigits(s: string)
    requires forall i :: 0 <= i < |s| ==> IsDigit(s[i]) || s[i] == ','
    ensures AllDigits(Without(s, ','))
    decreases |s|
  {
    if s != [] {
      WithoutCommasDigits(s[1..]);
    }
  }

  lemma HeadDigits(t: string)
    requires AmountShape(t)
    ensures AllDigits(Without(t[..|t| - 3], ','))
  {
    var head := t[..|t| - 3];
    assert forall i :: 0 <= i < |head| ==> head[i] == t[i];
    WithoutCommasDigits(head);
  }

  /** The first '.' after a run of digits is the one that ends it. */
  lemma DotAfterDigits(d: string, tail: string)
    requires AllDigits(d) && |tail| > 0 && tail[0] == '.'
    ensures IndexOf(d + tail, '.', 0) == |d| && BeforeFirst(d + tail, '.') == d
  {
    var c := d + tail;
    assert c[|d|] == '.';
    assert forall j :: 0 <= j < |d| ==> c[j] == d[j];
    assert c[..|d|] == d;
  }

  /** Two digits after the point are that many cents. */
  lemma DecimalValueOfDigits(d: string, c1: char, c2: char)
    requires AllDigits(d) && IsDigit(c1) && IsDigit(c2)
    ensures DecimalValue(d, [c1, c2]) == Some(DigitsValue(d) * 100 + DigitValue(c1) * 10 + DigitValue(c2))
  {
    var frac := [c1, c2];
    var init := [c1];
    assert frac[..1] == init && init[..0] == [];
    assert DigitsValue(init) == DigitValue(c1);
    assert DigitsValue(frac) == DigitValue(c1) * 10 + DigitValue(c2);
  }

  /** Digits, a point and two more characters are split at that point. */
  lemma ParseCentsAtDot(d: string, c1: char, c2: char)
    requires AllDigits(d)
    ensures ParseCents(d + ['.', c1, c2]) == DecimalValue(d, [c1, c2])
  {
    var tail := ['.', c1, c2];
    var c := d + tail;
    DotAfterDigits(d, tail);
    assert c[..|d|] == d;
    assert c[|d| + 1..] == [c1, c2];
  }

  /** Digits, a point and two digits parse to the digits in units and the two after the point in cents. */
  lemma ParseDigitsAndCents(d: string, c1: char, c2: char)
    requires AllDigits(d) && IsDigit(c1) && IsDigit(c2)
    ensures ParseCents(d + ['.', c1, c2]) == Some(DigitsValue(d) * 100 + DigitValue(c1) * 10 + DigitValue(c2))
  {
    ParseCentsAtDot(d, c1, c2);
    DecimalValueOfDigits(d, c1, c2);
  }

  /** Digits then a point and two digits carry no whitespace at either end. */
  lemma DigitsAndCentsStripped(d: string, tail: string)
    requires AllDigits(d) && |tail| == 3 && tail[0] == '.' && IsDigit(tail[2])
    ensures Strip(d + tail) == d + tail
  {
    var c := d + tail;
    assert c[0] == (if |d| > 0 then d[0] else '.');
    assert c[|c| - 1] == tail[2];
    StripFixed(c);
  }

  /** `_to_float` on text whose cleaned form is already stripped and is neither empty nor a lone '.'. */
  lemma ToCentsOfStripped(numStr: string, c: string)
    requires Without(numStr, ',') == c && Strip(c) == c && c != [] && c != "."
    ensures ToCents(numStr) == if |BeforeFirst(c, '.')| > 6 then None else ParseCents(c)
  {
  }

  /**
   * `_to_float` is exact on text that, once its commas go, is digits, a
   * point and two digits: the digits before the point in units and the
   * two after it in cents, unless more than six digits come before the
   * point.
   */
  lemma ToCentsOfAmount(numStr: string, digits: string, c1: char, c2: char)
    requires AllDigits(digits) && IsDigit(c1) && IsDigit(c2) && Without(numStr, ',') == digits + ['.', c1, c2]
    ensures ToCents(numStr) == PointValue(digits, c1, c2)
  {
    var tail := ['.', c1, c2];
    var c := digits + tail;
    DotAfterDigits(digits, tail);
    DigitsAndCentsStripped(digits, tail);
    assert |c| >= 3;
    ToCentsOfStripped(numStr, c);
    PointValueParsed(digits, c1, c2);
  }

  /** PointValue is what ParseCents gives for the digits, the point and the two digits, within six digits. */
  lemma PointValueParsed(d: string, c1: char, c2: char)
    requires AllDigits(d) && IsDigit(c1) && IsDigit(c2)
    ensures PointValue(d, c1, c2) == if |d| > 6 then None else ParseCents(d + ['.', c1, c2])
  {
    ParseDigitsAndCents(d, c1, c2);
  }

  /** The last three characters of amount-shaped text are the point and the two cent digits. */
  lemma AmountTail(t: string)
    requires AmountShape(t)
    ensures t[|t| - 3..] == ['.', t[|t| - 2], t[|t| - 1]]
    ensures ',' !in t[|t| - 3..]
  {
  }

  /** Removing the commas of amount-shaped text leaves digits, the point and the two cent digits. */
  lemma AmountShapeWithoutCommas(t: string)
    requires AmountShape(t)
    ensures AllDigits(Without(t[..|t| - 3], ','))
    ensures Without(t, ',') == Without(t[..|t| - 3], ',') + ['.', t[|t| - 2], t[|t| - 1]]
  {
    AmountTail(t);
    WithoutBeforeSuffix(t, |t| - 3, ',');
    HeadDigits(t);
  }

  // ================================================================ total amount

  /** `val.replace("₹", "").replace("$", "").strip()`: no currency sign and no surrounding whitespace. */
  function CleanAmount(v: string): (r: string)
    ensures '$' !in r && '\U{20B9}' !in r && Strip(r) == r
  {
    var t := Without(Without(v, '\U{20B9}'), '$');
    StripIdempotent(t);
    StripKeepsOut(t, '$');
    StripKeepsOut(t, '\U{20B9}');
    Strip(t)
  }

  /** Each value cleaned of currency signs and surrounding whitespace. */
  function Cleaned(vals: seq<string>): (r: seq<string>)
    ensures |r| == |vals|
    ensures forall i :: 0 <= i < |r| ==> r[i] == CleanAmount(vals[i])
  {
    seq(|vals|, i requires 0 <= i < |vals| => CleanAmount(vals[i]))
  }

  /** The labelled amounts `re.findall` reports, each cleaned. */
  function LabeledAmounts(s: string): seq<string> {
    Cleaned(FindAllGroups(LabeledAmount, s))
  }

  /** The money-like decimals `re.findall` reports, verbatim. */
  function DecimalAmounts(s: string): seq<string> {
    FindAllGroups(Decimal, s)
  }

  /** What `_to_float` makes of each string. */
  function Parsed(vs: seq<string>): (ns: seq<Option<nat>>)
    ensures |ns| == |vs|
    ensures forall i :: 0 <= i < |vs| ==> ns[i] == ToCents(vs[i])
  {
    seq(|vs|, i requires 0 <= i < |vs| => ToCents(vs[i]))
  }

  /**
   * The `(text, value)` pairs the extractor collects: each string whose
   * parse `ns[i]` succeeded, with its value, in order.
   */
  function Candidates(vs: seq<string>, ns: seq<Option<nat>>): (c: seq<(string, nat)>)
    requires |ns| == |vs|
    ensures |c| <= |vs|
    ensures forall k :: 0 <= k < |c| ==> c[k].0 in vs
    decreases |vs|
  {
    if vs == [] then []
    else
      var n := |vs| - 1;
      var init := Candidates(vs[..n], ns[..n]);
      assert forall x :: x in vs[..n] ==> x in vs;
      init + (if ns[n].Some? then [(vs[n], ns[n].value)] else [])
  }

  /** Collecting candidates distributes over concatenation. */
  lemma {:induction false} CandidatesAppend(a: seq<string>, na: seq<Option<nat>>, b: seq<string>, nb: seq<Option<nat>>)
    requires |na| == |a| && |nb| == |b|
    ensures Candidates(a + b, na + nb) == Candidates(a, na) + Candidates(b, nb)
    decreases |b|
  {
    if b == [] {
      assert a + b == a && na + nb == na;
    } else {
      var m := |b| - 1;
      assert (a + b)[..|a| + m] == a + b[..m];
      assert (na + nb)[..|a| + m] == na + nb[..m];
      CandidatesAppend(a, na, b[..m], nb[..m]);
    }
  }

  /** One more string adds its candidate, when its parse succeeded, at the end. */
  lemma CandidatesSnoc(vs: seq<string>, ns: seq<Option<nat>>, i: nat)
    requires |ns| == |vs| && i < |vs|
    ensures Candidates(vs[..i + 1], ns[..i + 1])
            == Candidates(vs[..i], ns[..i]) + (if ns[i].Some? then [(vs[i], ns[i].value)] else [])
  {
    assert vs[..i + 1][..i] == vs[..i] && ns[..i + 1][..i] == ns[..i];
  }

  /** Position `i` of a successful parse has its candidate right after those of the strings before it. */
  lemma CandidateAt(vs: seq<string>, ns: seq<Option<nat>>, i: nat)
    requires |ns| == |vs| && i < |vs| && ns[i].Some?
    ensures |Candidates(vs[..i], ns[..i])| < |Candidates(vs, ns)|
    ensures Candidates(vs, ns)[|Candidates(vs[..i], ns[..i])|] == (vs[i], ns[i].value)
  {
    var v: seq<string> := [vs[i]];
    var n: seq<Option<nat>> := [ns[i]];
    assert vs == vs[..i] + v + vs[i + 1..];
    assert ns == ns[..i] + n + ns[i + 1..];
    CandidatesAppend(vs[..i] + v, ns[..i] + n, vs[i + 1..], ns[i + 1..]);
    CandidatesAppend(vs[..i], ns[..i], v, n);
    assert Candidates(v, n) == [(vs[i], ns[i].value)] by {
      assert v[..0] == [] && n[..0] == [];
    }
  }

  /** Candidate `k` comes from some successful parse, with exactly `k` candidates before it. */
  lemma {:induction false} CandidateSource(vs: seq<string>, ns: seq<Option<nat>>, k: nat)
    requires |ns| == |vs| && k < |Candidates(vs, ns)|
    ensures exists i: nat :: i < |vs| && ns[i].Some? && |Candidates(vs[..i], ns[..i])| == k
    decreases |vs|
  {
    var n := |vs| - 1;
    if k < |Candidates(vs[..n], ns[..n])| {
      CandidateSource(vs[..n], ns[..n], k);
      var i: nat :| i < n && ns[..n][i].Some? && |Candidates(vs[..n][..i], ns[..n][..i])| == k;
      assert vs[..n][..i] == vs[..i] && ns[..n][..i] == ns[..i];
    } else {
      assert ns[n].Some?;
    }
  }

  /** No candidate at all exactly when every parse failed. */
  lemma CandidatesEmptyIff(vs: seq<string>, ns: seq<Option<nat>>)
    requires |ns| == |vs|
    ensures Candidates(vs, ns) == [] <==> forall i :: 0 <= i < |ns| ==> ns[i].None?
  {
    if i: nat :| i < |ns| && ns[i].Some? {
      CandidateAt(vs, ns, i);
    }
    if Candidates(vs, ns) != [] {
      CandidateSource(vs, ns, 0);
    }
  }

  /**
   * Python's `max(c, key=lambda x: x[1])` as a position: the largest
   * value, and of equal values the first, since `max` only replaces its
   * pick on a strictly larger one.
   */
  function MaxIndex(c: seq<(string, nat)>): (k: nat)
    requires |c| > 0
    ensures k < |c|
    ensures forall j :: 0 <= j < |c| ==> c[j].1 <= c[k].1
    ensures forall j :: 0 <= j < k ==> c[j].1 < c[k].1
    decreases |c|
  {
    if |c| == 1 then 0
    else
      var k := MaxIndex(c[..|c| - 1]);
      if c[|c| - 1].1 > c[k].1 then |c| - 1 else k
  }

  /** Parse `i` succeeded, no successful parse is larger, and every successful parse before it is smaller. */
  predicate IsBest(ns: seq<Option<nat>>, i: nat) {
    i < |ns| && ns[i].Some?
    && (forall j :: 0 <= j < |ns| && ns[j].Some? ==> ns[j].value <= ns[i].value)
    && (forall j :: 0 <= j < i && ns[j].Some? ==> ns[j].value < ns[i].value)
  }

  /** A successful parse before position `i` has its candidate before the candidates of position `i` on. */
  lemma CandidateOrder(vs: seq<string>, ns: seq<Option<nat>>, j: nat, i: nat)
    requires |ns| == |vs| && j < i <= |vs| && ns[j].Some?
    ensures |Candidates(vs[..j], ns[..j])| < |Candidates(vs[..i], ns[..i])|
  {
    assert vs[..i] == vs[..j + 1] + vs[j + 1..i];
    assert ns[..i] == ns[..j + 1] + ns[j + 1..i];
    CandidatesAppend(vs[..j + 1], ns[..j + 1], vs[j + 1..i], ns[j + 1..i]);
    CandidatesSnoc(vs, ns, j);
  }

  /** The pick of `max` over the candidates is the first of the largest successful parses. */
  lemma BestCandidate(vs: seq<string>, ns: seq<Option<nat>>) returns (i: nat)
    requires |ns| == |vs| && Candidates(vs, ns) != []
    ensures IsBest(ns, i) && i < |vs| && Candidates(vs, ns)[MaxIndex(Candidates(vs, ns))].0 == vs[i]
  {
    var c := Candidates(vs, ns);
    var k := MaxIndex(c);
    CandidateSource(vs, ns, k);
    i :| i < |vs| && ns[i].Some? && |Candidates(vs[..i], ns[..i])| == k;
    CandidateAt(vs, ns, i);
    forall j | 0 <= j < |ns| && ns[j].Some?
      ensures ns[j].value <= ns[i].value
      ensures j < i ==> ns[j].value < ns[i].value
    {
      CandidateAt(vs, ns, j);
      if j < i {
        CandidateOrder(vs, ns, j, i);
      }
    }
    assert IsBest(ns, i);
  }

  /** The first largest string, by value, of those `_to_float` accepts, when it accepts any. */
  function BestOf(vs: seq<string>): (r: Option<string>)
    ensures r.Some? ==> r.value in vs
  {
    var c := Candidates(vs, Parsed(vs));
    if c != [] then Some(c[MaxIndex(c)].0) else None
  }

  /**
   * `extract_total_amount`: the best cleaned labelled amount; when
   * `_to_float` accepts none of them, the best money-like decimal,
   * verbatim; else None.
   */
  function TotalAmountOf(s: string): (r: Option<string>)
    ensures r.Some? ==> r.value in LabeledAmounts(s) || r.value in DecimalAmounts(s)
  {
    match BestOf(LabeledAmounts(s))
    case Some(v) => Some(v)
    case None => BestOf(DecimalAmounts(s))
  }

  /** `extract_total_amount`: the labelled amounts first, the money-like decimals only when no labelled one parses. */
  method ExtractTotalAmount(text: string) returns (r: Option<string>)
    ensures r == TotalAmountOf(text)
  {
    var labeled := FindAllGroups(LabeledAmount, text);
    if |labeled| > 0 {
      var candidates := LabeledCandidates(labeled);
      if |candidates| > 0 {
        var best := MaxIndex(candidates);
        return Some(candidates[best].0);
      }
    }
    var allNumbers := FindAllGroups(Decimal, text);
    if |allNumbers| == 0 {
      return None;
    }
    var numericValues := DecimalCandidates(allNumbers);
    if |numericValues| == 0 {
      return None;
    }
    var best := MaxIndex(numericValues);
    return Some(numericValues[best].0);
  }

  /** The labelled loop of `extract_total_amount`: clean each value and keep those `_to_float` accepts, with their values. */
  method LabeledCandidates(labeled: seq<string>) returns (candidates: seq<(string, nat)>)
    ensures candidates == Candidates(Cleaned(labeled), Parsed(Cleaned(labeled)))
  {
    ghost var cleaned := Cleaned(labeled);
    ghost var parsed := Parsed(cleaned);
    candidates := [];
    for i := 0 to |labeled|
      invariant candidates == Candidates(cleaned[..i], parsed[..i])
    {
      var val := CleanAmount(labeled[i]);
      var num := ToCents(val);
      if num.Some? {
        candidates := candidates + [(val, num.value)];
      }
      CandidatesSnoc(cleaned, parsed, i);
    }
    assert cleaned[..|labeled|] == cleaned && parsed[..|labeled|] == parsed;
  }

  /** The fallback loop of `extract_total_amount`: keep the decimals `_to_float` accepts, with their values. */
  method DecimalCandidates(allNumbers: seq<string>) returns (numericValues: seq<(string, nat)>)
    ensures numericValues == Candidates(allNumbers, Parsed(allNumbers))
  {
    ghost var parsed := Parsed(allNumbers);
    numericValues := [];
    for i := 0 to |allNumbers|
      invariant numericValues == Candidates(allNumbers[..i], parsed[..i])
    {
      var val := ToCents(allNumbers[i]);
      if val.Some? {
        numericValues := numericValues + [(allNumbers[i], val.value)];
      }
      CandidatesSnoc(allNumbers, parsed, i);
    }
    assert allNumbers[..|allNumbers|] == allNumbers && parsed[..|allNumbers|] == parsed;
  }

  /** `BestOf` picks the first of the largest accepted strings, and finds nothing exactly when none is accepted. */
  lemma BestOfIsBest(vs: seq<string>) returns (i: nat)
    ensures BestOf(vs).None? <==> forall j :: 0 <= j < |vs| ==> ToCents(vs[j]).None?
    ensures BestOf(vs).Some? ==> i < |vs| && IsBest(Parsed(vs), i) && BestOf(vs).value == vs[i]
  {
    CandidatesEmptyIff(vs, Parsed(vs));
    if Candidates(vs, Parsed(vs)) != [] {
      i := BestCandidate(vs, Parsed(vs));
    } else {
      i := 0;
    }
  }

  /**
   * A labelled amount that `_to_float` accepts decides the total, wherever
   * it stands and however large the unlabelled decimals are: the total is
   * the first largest accepted labelled amount, cleaned.
   */
  lemma TotalPrefersLabels(s: string)
    requires exists i :: 0 <= i < |LabeledAmounts(s)| && ToCents(LabeledAmounts(s)[i]).Some?
    ensures TotalAmountOf(s).Some?
    ensures exists i: nat :: i < |LabeledAmounts(s)| && IsBest(Parsed(LabeledAmounts(s)), i)
                             && TotalAmountOf(s).value == LabeledAmounts(s)[i]
    ensures var v := TotalAmountOf(s).value; '$' !in v && '\U{20B9}' !in v && Strip(v) == v
  {
    var vs := LabeledAmounts(s);
    var i := BestOfIsBest(vs);
    assert TotalAmountOf(s) == Some(vs[i]);
    assert vs[i] == CleanAmount(FindAllGroups(LabeledAmount, s)[i]);
  }

  /**
   * Without an accepted labelled amount the total is the first largest
   * money-like decimal that `_to_float` accepts, verbatim, and None
   * exactly when it accepts none.
   */
  lemma TotalFallsBackToDecimals(s: string)
    requires forall i :: 0 <= i < |LabeledAmounts(s)| ==> ToCents(LabeledAmounts(s)[i]).None?
    ensures TotalAmountOf(s).None? <==> forall i :: 0 <= i < |DecimalAmounts(s)| ==> ToCents(DecimalAmounts(s)[i]).None?
    ensures TotalAmountOf(s).Some? ==> exists i: nat :: i < |DecimalAmounts(s)| && IsBest(Parsed(DecimalAmounts(s)), i)
                                                       && TotalAmountOf(s).value == DecimalAmounts(s)[i]
  {
    var _ := BestOfIsBest(LabeledAmounts(s));
    var vs := DecimalAmounts(s);
    var i := BestOfIsBest(vs);
    if TotalAmountOf(s).Some? {
      assert TotalAmountOf(s).value == vs[i];
    }
  }

  /** A found total is a string `_to_float` accepts: at most six characters before the point once the commas go. */
  lemma TotalIsAccepted(s: string)
    requires TotalAmountOf(s).Some?
    ensures ToCents(TotalAmountOf(s).value).Some?
    ensures |BeforeFirst(Without(TotalAmountOf(s).value, ','), '.')| <= 6
  {
    var labeled := LabeledAmounts(s);
    var i := BestOfIsBest(labeled);
    if BestOf(labeled).Some? {
      assert Parsed(labeled)[i].Some?;
    } else {
      var decimals := DecimalAmounts(s);
      var j := BestOfIsBest(decimals);
      assert Parsed(decimals)[j].Some?;
    }
  }

  /** Every money-like decimal is amount-shaped, so `_to_float` reads it exactly. */
  lemma DecimalIsAmountShaped(s: string, i: nat)
    requires i < |DecimalAmounts(s)|
    ensures AmountShape(DecimalAmounts(s)[i])
  {
    var h := FindAll(Decimal, s, 0)[i];
    var g := h.group;
    var t := s[g.lo..g.hi];
    assert forall j :: 0 <= j < |t| ==> t[j] == s[g.lo + j];
    assert AllIn(s, g.lo, g.hi - 3, DigitOrComma);
  }

  /** Cleaning drops currency signs and whitespace put in front of text that has neither. */
  lemma CleanAfterPrefix(pre: string, num: string)
    requires forall j :: 0 <= j < |pre| ==> IsCurrency(pre[j]) || IsSpace(pre[j])
    requires '\U{20B9}' !in num && '$' !in num
    requires num != [] && !IsSpace(num[0]) && !IsSpace(num[|num| - 1])
    ensures CleanAmount(pre + num) == num
  {
    SplitWithout(pre, num, '\U{20B9}');
    SplitWithout(Without(pre, '\U{20B9}'), num, '$');
    var w := Without(Without(pre, '\U{20B9}'), '$');
    assert AllSpace(w) by {
      forall k | 0 <= k < |w| ensures IsSpace(w[k]) {
        assert w[k] in pre;
      }
    }
    StripSpacePrefix(w, num);
  }

  /** What the engine matches before the digits of an amount group is a currency sign or whitespace. */
  lemma AmountPrefix(s: string, g: nat)
    requires g <= |s|
    ensures var pre := s[g..AmountNumberStart(s, g)];
            forall j :: 0 <= j < |pre| ==> IsCurrency(pre[j]) || IsSpace(pre[j])
  {
    var pre := s[g..AmountNumberStart(s, g)];
    assert forall j :: 0 <= j < |pre| ==> pre[j] == s[g + j];
  }

  /** The digits-and-cents part of an amount group is amount-shaped text with no sign and no whitespace at its ends. */
  lemma AmountNumber(s: string, g: nat, e: nat)
    requires g <= |s| && AmountGroupShape(s, g, e)
    ensures var num := s[AmountNumberStart(s, g)..e];
            AmountShape(num) && '\U{20B9}' !in num && '$' !in num && !IsSpace(num[0]) && !IsSpace(num[|num| - 1])
  {
    var n := AmountNumberStart(s, g);
    var num := s[n..e];
    assert forall j :: 0 <= j < |num| ==> num[j] == s[n + j];
    assert forall j :: 0 <= j < |num| ==> IsDigit(num[j]) || num[j] == ',' || num[j] == '.';
  }

  /**
   * Cleaning an amount group drops the currency sign and the spaces the
   * engine matched before the digits: what is left is the digits and
   * commas, the point and the two cent digits.
   */
  lemma CleanAmountGroup(s: string, g: nat, e: nat)
    requires g <= |s| && AmountGroupShape(s, g, e)
    ensures AmountShape(s[AmountNumberStart(s, g)..e])
    ensures CleanAmount(s[g..e]) == s[AmountNumberStart(s, g)..e]
  {
    var n := AmountNumberStart(s, g);
    assert s[g..e] == s[g..n] + s[n..e];
    AmountPrefix(s, g);
    AmountNumber(s, g, e);
    CleanAfterPrefix(s[g..n], s[n..e]);
  }

  /** Every labelled amount, once cleaned, is digits and commas, a point and two digits. */
  lemma LabeledIsAmountShaped(s: string, i: nat)
    requires i < |LabeledAmounts(s)|
    ensures AmountShape(LabeledAmounts(s)[i])
  {
    var h := FindAll(LabeledAmount, s, 0)[i];
    var g := h.group;
    LabeledGroupShape(s, h.at, g);
    CleanAmountGroup(s, g.lo, g.hi);
    assert LabeledAmounts(s)[i] == CleanAmount(s[g.lo..g.hi]);
  }

  /**
   * The value in cents of digits `d`, a point and digits `c1 c2`, when
   * at most six digits come before the point: the digits in units and
   * the two after the point in cents; None otherwise.
   */
  function PointValue(d: string, c1: char, c2: char): Option<nat>
    requires AllDigits(d) && IsDigit(c1) && IsDigit(c2)
  {
    if |d| <= 6 then Some(DigitsValue(d) * 100 + DigitValue(c1) * 10 + DigitValue(c2)) else None
  }

  /** What an amount-shaped string denotes, in cents, once its commas are dropped. */
  function AmountValue(t: string): Option<nat>
    requires AmountShape(t)
  {
    HeadDigits(t);
    PointValue(Without(t[..|t| - 3], ','), t[|t| - 2], t[|t| - 1])
  }

  /** `_to_float` reads every amount-shaped string exactly. */
  lemma AmountShapeParsed(t: string)
    requires AmountShape(t)
    ensures ToCents(t) == AmountValue(t)
  {
    var d := Without(t[..|t| - 3], ',');
    AmountShapeWithoutCommas(t);
    ToCentsOfAmount(t, d, t[|t| - 2], t[|t| - 1]);
  }

  /** Every labelled amount and every money-like decimal the extractor collects is read exactly. */
  lemma AmountsParsedExactly(s: string, i: nat)
    ensures i < |LabeledAmounts(s)| ==>
              AmountShape(LabeledAmounts(s)[i]) && ToCents(LabeledAmounts(s)[i]) == AmountValue(LabeledAmounts(s)[i])
    ensures i < |DecimalAmounts(s)| ==>
              AmountShape(DecimalAmounts(s)[i]) && ToCents(DecimalAmounts(s)[i]) == AmountValue(DecimalAmounts(s)[i])
  {
    if i < |LabeledAmounts(s)| {
      LabeledIsAmountShaped(s, i);
      AmountShapeParsed(LabeledAmounts(s)[i]);
    }
    if i < |DecimalAmounts(s)| {
      DecimalIsAmountShaped(s, i);
      AmountShapeParsed(DecimalAmounts(s)[i]);
    }
  }

  // ================================================================ extract_fields

  /** The record `extract_fields` returns, one entry per field. */
  datatype Fields = Fields(vendor: Option<string>, invoiceNumber: Option<string>,
                           invoiceDate: Option<string>, totalAmount: Option<string>)

  /** Every field is extracted from the same text, independently of the others. */
  method ExtractFields(text: string) returns (f: Fields)
    ensures f == Fields(VendorOf(text), InvoiceNumberOf(text), ExtractInvoiceDate(text), TotalAmountOf(text))
  {
    var vendor := ExtractVendor(text);
    var number := ExtractInvoiceNumber(text);
    var total := ExtractTotalAmount(text);
    f := Fields(vendor, number, ExtractInvoiceDate(text), total);
  }
}
