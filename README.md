# Invoice field extraction and record validation, in Dafny

This project models the core of an invoice-processing bot. The core is
`invoice_parser.py`, which pulls four fields (vendor, invoice number,
invoice date, total amount) out of the text of a scanned invoice. The
core also includes `validate_record` from `utils.py`, which grades a record
of extracted fields as `OK`, `WARNING` or `ERROR`.

Layout:

- `Wrappers.dfy`: the `Option` type.
- `Text.dfy`: the string operations the extractors use, limited to ASCII:
  - the character classes behind `\d`, `\w` and `\s`;
  - `lower`, `strip`, `splitlines`, `replace(c, "")` (`Without`), `split(c)[0]` (`BeforeFirst`);
  - substring `in` and `join`.
- `Patterns.dfy`: each fixed regular expression of the extractors, written
  as a scanner that follows Python's backtracking `re` engine.
  - A match is tried at each position in turn and quantifiers are greedy.
  - When a quantifier must give characters back, the scanner takes the
    alternative the engine reaches first. For example, `[^\d]*` before the
    amount group gives back one character at a time, and `[:\s]+` before
    `(.+)`, when it runs to the end of the text, gives back characters
    until the next one is not a line break.
  - `Table` records what a pattern captures at each position.
  - `Search` is `re.search` (the leftmost match).
  - `FindAll` is `re.findall` (matches from left to right, each search
    resuming where the previous match ended).
- `InvoiceParser.dfy`: the extractors.
  - The three extractors that loop in Python are methods with loops:
    `ExtractVendor` (with its four scans), `ExtractInvoiceNumber`, and
    `ExtractTotalAmount` (with its two collection loops). Each is proved
    equal to a specification function: `VendorOf`, `InvoiceNumberOf`,
    `TotalAmountOf`. Lemmas then state what those functions promise.
  - `extract_invoice_date` (`ExtractInvoiceDate`) and `_to_float`
    (`ToCents`) are functions.
  - `extract_fields` is the method `ExtractFields`.
- `Utils.dfy`: `validate_record` (`ValidateRecord`) as a function.
  - A record is its entries in insertion order.
  - A value is `None` or a string, and it is falsy when it is `None` or empty.

Amounts are modelled as exact numbers of cents (`nat`) rather than binary
floats. Every string the extractors pass to `_to_float` is digits and
commas, a point and two digits, and the values `_to_float` accepts among
them have at most six digits before the point. For those, float comparison
orders values exactly as comparing cents does, so `max` picks the same
string.

Behaviour of the code that is easy to misread:

- The vendor window below a "sold by" line is the next four lines
  (`lines[i+1 .. i+4]`), blank ones included. It is not the next four
  non-empty lines.
- When that window yields nothing, the scan goes on to the next "sold by"
  line rather than stopping.
- In a date, the two separators are independent `[-/\.]` classes, so
  "24/09-2025" is a date (`MixedSeparatorsAreADate`).
- `[:\s]+` after a vendor label can run across line breaks. The captured
  "line" can therefore be a later line. It can also be a lone space, so the
  label fallback can return the empty string.
- The amount labels also include "Total amount".
- The amount group's `[\d,]+` allows a run of commas only, as in ",.50".
- The missing fields of `validate_record` are a list in key order, not a set.

## Model

| member | source | states |
|---|---|---|
| Text.Strip | invoice_parser.py:19 | `str.strip()`: the result is the slice of the input after its leading whitespace; everything after it is whitespace; it is empty exactly when the input is all whitespace; a nonempty result neither starts nor ends with whitespace |
| Text.StripIdempotent | invoice_parser.py:40-41 | stripping twice gives the same as stripping once |
| Text.SplitLines | invoice_parser.py:13 | `splitlines()` at '\n': no line holds a line break, there are no lines exactly when the text is empty, and the lines joined with '\n' give back the text without its final '\n' |
| Text.Lower | invoice_parser.py:16 | `lower()` keeps the length of the string |
| Text.LowerFolds | invoice_parser.py:23 | `lower()` turns each upper-case letter into its own lower-case letter, leaves no upper-case letter and keeps every character that is not one |
| Text.Contains | invoice_parser.py:24 | substring `in`: a string found inside another is no longer than it, and the empty string is found in every string |
| Text.Join | utils.py:42 | `sep.join(xs)`: nothing joins to the empty string, and the result starts with the first piece |
| Text.JoinCons | utils.py:42 | one separator stands between the first piece and the join of the rest, and none when there is no rest |
| Text.StripSpacePrefix | invoice_parser.py:139 | `strip()` after whitespace put in front of a string with no whitespace at its ends gives back that string |
| Text.AllLinesBlankIff | invoice_parser.py:44-48 | every line strips to nothing exactly when the whole text is whitespace |
| Text.Without | invoice_parser.py:98 | `replace(c, "")` leaves no `c`, keeps every other character that occurs, and never lengthens the string |
| Text.WithoutAppend | invoice_parser.py:98 | removing a character distributes over concatenation |
| Text.BeforeFirst | invoice_parser.py:102 | `split(c)[0]` is the prefix before the first `c`, holds no `c`, and is followed by `c` when shorter than the input |
| Patterns.VendorAt | invoice_parser.py:31-34 | `label[:\s]+(.+)` under IGNORECASE: the group follows a nonempty `[:\s]` run after the label, holds no line break and runs to the end of its line; it starts as late as the greedy `[:\s]+` allows, every later position of that run being a line break; there is no match exactly when every nonempty `[:\s]` run after the label is followed by a line break or the end of the text |
| Patterns.TokenAfter | invoice_parser.py:56-59 | `[:\s]+([\w-]+)`: the group is a maximal run of `[\w-]` right after a nonempty `[:\s]` run; there is no match exactly when no nonempty `[:\s]` run is followed by a `[\w-]` character |
| Patterns.InvDotNoEnd | invoice_parser.py:58 | `Inv\.\s*No` under IGNORECASE: a match is "Inv.", a run of whitespace and "No", and nothing else |
| Patterns.InvDotNoAnySpacing | invoice_parser.py:58 | in `Inv\.\s*No`, any run of whitespace between "Inv." and "No", including none, is accepted |
| Patterns.DigitsThenSep | invoice_parser.py:83 | `\d{1,2}[-/\.]` matches with one or two digits, and the count is forced whenever either fits |
| Patterns.DateAt | invoice_parser.py:83 | a date match ends after its start, and a date starts with a digit |
| Patterns.DateAtLongest | invoice_parser.py:83 | the date scanner finds a date shape wherever one starts, and the longest one there (greedy `\d{2,4}`) |
| Patterns.DateAfter | invoice_parser.py:77 | `Invoice Date[:\s]+(date)` after the label: the date follows a nonempty `[:\s]` run; there is no match exactly when no nonempty `[:\s]` run is followed by a date |
| Patterns.AmountNumberStart | invoice_parser.py:130 | `[\$₹]?\s*` before the digits: the sign when there is one, then a maximal run of whitespace |
| Patterns.AmountGroupAt | invoice_parser.py:130 | `[\$₹]?\s*[\d,]+\.\d{2}`: a found group is the optional sign and spaces, a nonempty run of digits and commas, then a point and two digits |
| Patterns.AmountGroupAtComplete | invoice_parser.py:130 | an amount group of that shape is always found, with that end |
| Patterns.LastHit | invoice_parser.py:130 | a greedy quantifier giving back characters: the found start lies in the range and the follow-on matches there |
| Patterns.LastHitIsLast | invoice_parser.py:130 | wherever in the range the follow-on matches, a start is found, at that position or later |
| Patterns.LastAmountGroup | invoice_parser.py:130 | `[^\d]*` giving back characters: the found start lies in the range and an amount group starts there, with that end |
| Patterns.LastAmountGroupIsLast | invoice_parser.py:130 | wherever in the range an amount group starts, one is found at that position or later |
| Patterns.AmountAfterLabel | invoice_parser.py:130 | `[^\d]*(amount)` after a label: the group follows non-digits only and is an amount group; no later position reachable over non-digits starts an amount group; there is no match exactly when no such position does |
| Patterns.FirstHit | invoice_parser.py:129 | an alternation tries its branches in order: the branch found succeeds and none before it does |
| Patterns.FirstLabel | invoice_parser.py:129-130 | the label chosen is the first of the seven, in list order, that matches and is followed by an amount; no earlier one is |
| Patterns.AmountFrom | invoice_parser.py:128-132 | the labelled-amount pattern at a position: no match exactly when no label there is followed by an amount; otherwise the amount after the first such label |
| Patterns.MatchAtLabeledAmount | invoice_parser.py:128-132 | the labelled-amount pattern matches exactly as `AmountFrom` |
| Patterns.AmountFromShape | invoice_parser.py:130 | the span a labelled-amount match captures is an amount group |
| Patterns.LabeledGroupShape | invoice_parser.py:128-134 | the group of every labelled-amount match is an amount group |
| Patterns.DecimalAt | invoice_parser.py:149 | `\d[\d,]*\.\d{2}`: a found match is a digit, digits and commas, then a point and two digits |
| Patterns.DecimalAtComplete | invoice_parser.py:149 | a decimal of that shape is always found, with that end |
| Patterns.MatchAt | invoice_parser.py:31-149 | the match of any of the extractors' patterns at a position: a nonempty group starting at or after that position, within the text |
| Patterns.Search | invoice_parser.py:38 | `re.search`: the position found matches and none before it does; when nothing is found, no position matches |
| Patterns.SearchGroup | invoice_parser.py:38-40 | a search yields a group exactly when the pattern matches somewhere |
| Patterns.FindAll | invoice_parser.py:134 | `re.findall`: every reported hit is a match of the pattern at its position, with that captured group |
| Patterns.FindAllDisjoint | invoice_parser.py:134 | reported matches never overlap: each starts at or after the end of every earlier one |
| Patterns.FindAllComplete | invoice_parser.py:149 | no match is skipped: every position where the pattern matches lies inside some reported match |
| Patterns.FindAllGroups | invoice_parser.py:134 | the captured strings, one per reported match, in order |
| InvoiceParser.FirstSome | invoice_parser.py:37-39 | a chain of searches stops at the first pattern that found something; every earlier one found nothing |
| InvoiceParser.WindowIndex | invoice_parser.py:18-27 | the chosen window line is non-blank and not an address label; every earlier window line is blank or an address label |
| InvoiceParser.SoldByIndex | invoice_parser.py:15-27 | the chosen "sold by" line's window yields a vendor; no earlier "sold by" line's window does |
| InvoiceParser.LabelVendor | invoice_parser.py:37-41 | the label fallback yields something exactly when some label pattern matches; it yields the stripped group of the first one in list order |
| InvoiceParser.LabelTextOfLine | invoice_parser.py:40-41 | for a group without a line break, `split("\n")[0].strip()` after `strip()` changes nothing further |
| InvoiceParser.VendorGroupIsLine | invoice_parser.py:31-40 | a vendor label's group never holds a line break |
| InvoiceParser.NonBlankIndex | invoice_parser.py:44-47 | the chosen line is the first one that is not blank |
| InvoiceParser.VendorOf | invoice_parser.py:4-48 | `extract_vendor` as a function: the sold-by scan, else the label patterns, else the first non-blank line; it has no contract of its own, and its properties are `VendorNoneIff`, `VendorIsStripped`, `VendorFromSoldBy` and `VendorFromLabels` |
| InvoiceParser.ExtractVendor | invoice_parser.py:4-48 | `extract_vendor` equals `VendorOf`: the sold-by scan, else the label patterns, else the first non-blank line, each fallback run only when the ones before found nothing |
| InvoiceParser.ScanSoldBy | invoice_parser.py:15-27 | the loop over lines returns the window result of the first "sold by" line whose window yields a vendor, else None |
| InvoiceParser.ScanWindow | invoice_parser.py:18-27 | the loop over the window returns the first of lines `i+1` to `min(i+5, n)-1` that is neither blank nor an address label, stripped |
| InvoiceParser.ScanLabels | invoice_parser.py:37-41 | the loop over the label patterns equals `LabelVendor` |
| InvoiceParser.ScanNonBlank | invoice_parser.py:44-48 | the last loop returns the first non-blank line, stripped, else None |
| InvoiceParser.NoLabelInBlankText | invoice_parser.py:31-38 | no vendor label matches in a text that is all whitespace |
| InvoiceParser.VendorNoneIff | invoice_parser.py:4-48 | the vendor is None exactly when every line is blank |
| InvoiceParser.NoVendorInBlankText | invoice_parser.py:13-48 | a text whose every line is blank has no vendor |
| InvoiceParser.VendorInNonBlankText | invoice_parser.py:43-47 | a text with a non-blank line always has a vendor, since the last fallback returns that line when nothing before it found one |
| InvoiceParser.VendorIsStripped | invoice_parser.py:19-47 | a found vendor has no whitespace at either end, whichever of the three strategies found it |
| InvoiceParser.VendorFromSoldBy | invoice_parser.py:15-27 | given the first "sold by" line whose window yields something, the vendor is the first acceptable line among the four below it, stripped |
| InvoiceParser.EarlierPatternsMatchNowhere | invoice_parser.py:37-39 | the patterns tried before the one the chain stops at match at no position of the text |
| InvoiceParser.VendorFromLabels | invoice_parser.py:29-47 | without a sold-by hit, the first label pattern in list order that matches anywhere gives the vendor; when none matches, the vendor is the first non-blank line or None |
| InvoiceParser.NumberGroupIsToken | invoice_parser.py:55-60 | every invoice-number pattern captures a nonempty run of `[\w-]` that the text does not continue, which `strip()` leaves unchanged |
| InvoiceParser.InvoiceNumberOf | invoice_parser.py:51-67 | `extract_invoice_number` as a function: a found invoice number is nonempty and has no whitespace at either end |
| InvoiceParser.InvoiceNumberOfFirst | invoice_parser.py:62-65 | the first pattern, in list order, that matches gives the invoice number: the group of its leftmost match, stripped |
| InvoiceParser.ExtractInvoiceNumber | invoice_parser.py:51-67 | the loop over the patterns equals `InvoiceNumberOf` |
| InvoiceParser.InvoiceNumberNoneIff | invoice_parser.py:62-67 | the invoice number is None exactly when no pattern matches at any position |
| InvoiceParser.InvoiceNumberIsToken | invoice_parser.py:55-65 | a found invoice number is the unstripped token captured at the leftmost match of the first pattern that matches anywhere |
| InvoiceParser.ExtractInvoiceDate | invoice_parser.py:70-85 | `extract_invoice_date`: None exactly when neither the labelled nor the generic date pattern matches anywhere; a found date has no whitespace at either end |
| InvoiceParser.InvoiceDateIsDateShaped | invoice_parser.py:70-85 | a found date is always a date-shaped piece of the text |
| InvoiceParser.DateGroupUnstripped | invoice_parser.py:83-85 | a matched date holds no whitespace, so `strip()` leaves it unchanged |
| InvoiceParser.InvoiceDateLabelFirst | invoice_parser.py:76-80 | when "Invoice Date" is followed by a date, the result is the date after the leftmost such label, whatever dates come earlier |
| InvoiceParser.DateFallback | invoice_parser.py:82-85 | without a labelled date, the result is the text of the leftmost date match |
| InvoiceParser.InvoiceDateLeftmost | invoice_parser.py:82-85 | without a labelled date, the result is None exactly when no date shape occurs; otherwise it starts where the leftmost date shape starts and is the longest date shape there |
| InvoiceParser.MixedSeparatorsAreADate | invoice_parser.py:83 | "24/09-2025" has the date shape: the two separators are chosen independently |
| InvoiceParser.FractionCents | invoice_parser.py:108 | at most two digits after the point are fewer than 100 cents |
| InvoiceParser.DecimalValue | invoice_parser.py:108 | `float(whole.frac)` in cents: accepted only when both parts are digits, at most two follow the point and there is at least one digit; then the units are the value of `whole` and the cents that of `frac`, below `10^n` units for `n` digits in `whole` |
| InvoiceParser.ParseCents | invoice_parser.py:108 | `float(t)` in cents: an accepted string has only digits before its first point, their value is the units, and the value is below `10^n` units for `n` characters before the point |
| InvoiceParser.ToCents | invoice_parser.py:92-110 | `_to_float`: an accepted string has at most six characters before its first point once commas are removed, and a value below one million units; a string that is blank, or only a point, once commas are removed and it is stripped, is rejected |
| InvoiceParser.ToCentsOfAmount | invoice_parser.py:97-108 | a string that is digits, a point and two digits once its commas are removed is read exactly (the digits in units, the two after the point in cents) when at most six digits precede the point, and is rejected otherwise |
| InvoiceParser.PointValueParsed | invoice_parser.py:102-108 | digits, a point and two digits are read as the digits in units and the two after the point in cents, and rejected when more than six digits come before the point |
| InvoiceParser.AmountShapeWithoutCommas | invoice_parser.py:98 | removing the commas of a `[\d,]*\.\d{2}` string leaves digits, the point and the two cent digits |
| InvoiceParser.CleanAmount | invoice_parser.py:139 | a cleaned value holds no `$` or `₹` and no surrounding whitespace |
| InvoiceParser.CleanAmountGroup | invoice_parser.py:139 | cleaning a labelled amount group drops exactly the sign and spaces before its digits, leaving digits and commas, a point and two digits |
| InvoiceParser.LabeledIsAmountShaped | invoice_parser.py:130-139 | every labelled amount, once cleaned, is digits and commas, a point and two digits |
| InvoiceParser.AmountShapeParsed | invoice_parser.py:97-108 | `_to_float` reads every string of digits and commas, a point and two digits exactly, its commas dropped, and rejects it when more than six digits come before the point |
| InvoiceParser.AmountsParsedExactly | invoice_parser.py:134-157 | every labelled amount and every money-like decimal the extractor passes to `_to_float` has that shape and is read exactly |
| InvoiceParser.Cleaned | invoice_parser.py:138-139 | every labelled value is cleaned, in order |
| InvoiceParser.Parsed | invoice_parser.py:140 | every value is passed through `_to_float`, in order |
| InvoiceParser.Candidates | invoice_parser.py:137-142 | the candidates are no more than the strings, and each is one of them |
| InvoiceParser.CandidatesEmptyIff | invoice_parser.py:144 | the candidate list is empty exactly when every conversion failed |
| InvoiceParser.CandidateAt | invoice_parser.py:141-142 | each successful conversion contributes its `(string, value)` pair, right after those of the strings before it |
| InvoiceParser.CandidateSource | invoice_parser.py:141-142 | every candidate comes from a successful conversion |
| InvoiceParser.MaxIndex | invoice_parser.py:145 | `max(..., key=value)`: the chosen candidate has the largest value, and every earlier candidate is strictly smaller, so ties go to the first |
| InvoiceParser.BestCandidate | invoice_parser.py:144-146 | the pick of `max` is the first of the largest successful conversions |
| InvoiceParser.BestOf | invoice_parser.py:144-146 | a chosen best string is one of the strings offered |
| InvoiceParser.BestOfIsBest | invoice_parser.py:144-163 | the best string is None exactly when no conversion succeeds; otherwise it is the first string with the largest accepted value |
| InvoiceParser.TotalAmountOf | invoice_parser.py:113-164 | `extract_total_amount` as a function: a found total is one of the cleaned labelled amounts or one of the money-like decimals |
| InvoiceParser.ExtractTotalAmount | invoice_parser.py:113-164 | `extract_total_amount` equals `TotalAmountOf` |
| InvoiceParser.LabeledCandidates | invoice_parser.py:137-142 | the labelled loop collects, in order, each cleaned value that converts, with its value |
| InvoiceParser.DecimalCandidates | invoice_parser.py:153-157 | the fallback loop collects, in order, each decimal that converts, with its value |
| InvoiceParser.TotalPrefersLabels | invoice_parser.py:134-146 | one accepted labelled amount decides the total: it is the first largest accepted labelled amount, cleaned, whatever the unlabelled decimals are |
| InvoiceParser.TotalFallsBackToDecimals | invoice_parser.py:148-164 | with no accepted labelled amount, the total is the first largest accepted decimal, verbatim, and None exactly when no decimal is accepted |
| InvoiceParser.TotalIsAccepted | invoice_parser.py:140-164 | a found total is a string `_to_float` accepts, with at most six characters before the point once commas are removed |
| InvoiceParser.DecimalIsAmountShaped | invoice_parser.py:149 | every money-like decimal found has the shape digits-and-commas, point, two digits, so `ToCentsOfAmount` applies to it |
| InvoiceParser.ExtractFields | invoice_parser.py:169-178 | each of the four fields is its extractor applied to the same text, independently of the others |
| Utils.KeyIndex | utils.py:38 | the position of the first entry with the key, and no earlier entry has it |
| Utils.ValidateRecord | utils.py:30-44 | ERROR exactly when the total amount is absent or falsy; WARNING exactly when it is present and some other field is falsy; the comment matching each status |
| Utils.MissingKeys | utils.py:36 | the missing keys are no more than the entries, and never include "Filename" |
| Utils.MissingKeysIff | utils.py:36 | a key is reported missing exactly when some entry other than "Filename" carries it with a falsy value |
| Utils.MissingKeysAppend | utils.py:36 | the missing keys keep the record's key order |
| Utils.ErrorWhateverElse | utils.py:38-39 | a record without a truthy total amount is ("ERROR", "Missing total amount."), and so is any record with the same total-amount lookup, whatever its other fields |
| Utils.OkIff | utils.py:36-44 | OK exactly when "Total Amount" is present and every field except "Filename" is truthy |
| Utils.WarningOmitsTotal | utils.py:36-42 | when the keys are distinct, a WARNING's list of missing fields never names "Total Amount" or "Filename" |

## Left out

- File and console I/O are not part of this model: `main.py`, `streamlit_app.py`, and `get_logger` with its directory creation and log handlers (`utils.py:1-27`).
- Unicode is left out: `\d`, `\w`, `\s`, `lower()` and IGNORECASE are modelled on ASCII only, and `splitlines()` breaks only at '\n'. Python also breaks at '\r', '\x0b', '\x0c', '\x1c'–'\x1e', '\x85' and the Unicode line separators. Python's `str.strip()` also removes non-ASCII whitespace such as '\xa0', '\u2003' and '\x85', which `Text.Strip` keeps, and `float()` also accepts non-ASCII decimal digits, which `ParseCents` rejects.
- A general regular-expression engine is left out: each fixed pattern of the extractors is a dedicated scanner.
- The first group of the labelled-amount pattern (the label itself) is not modelled, since the extractor discards it.
- Amounts are exact cents, not binary floats, and float rounding is not modelled. For the strings the extractors pass, which `_to_float` accepts only with at most six digits before the point and exactly two after it, the two order the values alike.
- InvoiceParser.ToCents: the model rejects forms Python's `float` accepts: a sign, an exponent, "inf"/"nan", underscores, and more than two digits after the point. The extractors never pass such strings: every cleaned labelled amount and every decimal is digits and commas, a point and exactly two digits (`LabeledIsAmountShaped`, `DecimalIsAmountShaped`), and such strings are read exactly (`AmountShapeParsed`, `AmountsParsedExactly`).
- Text.Join: the contract states only that nothing joins to the empty string and that the result starts with the first piece. The separator between pieces is stated one step at a time in `JoinCons`.
- InvoiceParser.VendorOf: it carries no contract of its own; what it promises is stated in the lemmas about it (`VendorNoneIff`, `VendorIsStripped`, `VendorFromSoldBy`, `VendorFromLabels`).
- Patterns.FindAll: the contract does not say that each hit is the leftmost match after the previous one ended. The body does this. Non-overlap and completeness are stated in `FindAllDisjoint` and `FindAllComplete`.
- Utils.ValidateRecord: a record value is `None` or a string. Python's falsiness of other types (0, empty lists) is not modelled. A Python dict's distinct keys are a precondition (`IsDict`) only where a property depends on them (`WarningOmitsTotal`).
- The extractors never change their input text or record. This holds by value semantics and is not stated separately.
