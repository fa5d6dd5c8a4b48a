# FiscalCare GST core, modelled in Dafny

FiscalCare is a GST (Indian Goods and Services Tax) book-keeping
application. This project models its core in Dafny and proves properties of
the model. The core covers:

- **Invoice upload** (`POST /api/parse`). The document text is cleaned. Then
  regex extractors read the vendor, invoice number, date, GSTIN, total,
  GST rate, tax components, product and HSN code. The route reconciles the
  declared tax against the rate a CBIC lookup script replies with. It
  decides the supplier and buyer GSTINs from the transaction type. It builds
  the stored invoice and, for a purchase, a GSTR-2A entry.
- **Voice entry.** The browser reads fields out of a spoken transcript
  (`extractFromText`). `POST /api/voice-invoice` recomputes the tax from the
  spoken total and rate, and adjusts it to the CBIC rate.
- **Returns.**
  - GSTR-1 report: B2B and B2C lists, plus per-HSN totals.
  - GSTR-3B outward totals.
  - Monthly GSTR-3B summary route, filtered on the invoice date.
  - GSTR-2B route, built from the GSTR-2A entries.
  - The input-tax-credit rule.
  - The rate lookup by HSN code or keyword.
- **The two filing screens.**
  - The GSTR-1 filing page normalises stored invoices and works out filed
    GST and CBIC corrections.
  - The dashboard panel de-duplicates the invoice list, maps rows for
    display, totals them and exports a summary rounded to paise.

## How the model is built

- **Regular expressions.** Every labelled regex of the extractors is a
  constructor of `Patterns.Pat`. `text.match(p)` is an oracle
  `Patterns.Regex` constrained by `Patterns.Sound`:
  - the group count is right;
  - every capture has the shape its character classes allow;
  - every capture is a substring of the text;
  - a match is never empty.

  The properties proved about the extractors therefore hold for any correct
  regex engine. The scanners whose behaviour matters are written out
  concretely:
  - cleaning;
  - the strict and loose GSTIN scans;
  - the word-bounded 4–8 digit numbers;
  - the "HSN … code" proximity test;
  - the last `₹`/`Rs` amount;
  - the anchored date patterns;
  - the currency strip of `toNumSafe`.
- **Numbers.** JavaScript numbers are `JsNumber.Num`, which is `Fin(real)`
  or `NaN`. `parseFloat`, `Number` and `+x.toFixed(2)` are written out over
  exact reals. `toFixed(2)` rounds half away from zero.
- **Values.** Request bodies and stored documents are `JsValues.JsValue`.
  Truthiness, `??` and `||` are spelled out.
- **Dates.** `new Date(y, m, d)` is modelled with JavaScript's month/day
  roll-over, and with years 0–99 read as 1900–1999.
- **External inputs.** These are parameters:
  - the database;
  - the clock;
  - the CBIC script's reply;
  - the platform date parser;
  - `JSON.stringify`;
  - `String(number)`.

## Model

| member | source | states |
|---|---|---|
| TextCleaning.BreakLines | backend/routes/parse.js:27 | no carriage return or line feed survives |
| TextCleaning.CollapseSpaces | backend/routes/parse.js:28 | only characters of the input, or the single space that replaces a run, survive |
| TextCleaning.Strip | backend/routes/parse.js:29 | every character left is one the class `[\w\s₹%\-:.,/]` keeps, and each comes from the input |
| TextCleaning.CleanText | backend/routes/parse.js:25-30 | cleaned text has no line breaks, only kept characters, and no white space at either end |
| TextCleaning.CleanTextKeepsWordChars | backend/routes/parse.js:25-30 | cleaning never drops, adds or reorders a letter, digit or underscore |
| TextCleaning.CleanTextOfClean | backend/routes/parse.js:25-30 | text already in cleaned form is returned unchanged |
| TextCleaning.CleanTextNotIdempotent | backend/routes/parse.js:28-30 | space runs are collapsed before symbols are dropped, so "a @ b" cleans to "a  b", which cleans again to "a b" |
| Amounts.LastRupee | backend/routes/parse.js:55-57 | the capture of the last `₹`/`Rs` match is an amount-shaped substring of the text |
| Amounts.LastRupeeReadsFinalAmount | backend/routes/parse.js:55-59 | whatever precedes it, a text ending in " ₹" and digits yields exactly those digits as the last amount |
| Amounts.LoneRupee | backend/routes/parse.js:55-59 | "₹" followed by digits alone is read in full |
| Amounts.LabelAmount | backend/routes/parse.js:47-51 | a labelled pattern gives an amount exactly when it matches and its capture reads as a positive number, and the amount is that number |
| Amounts.FirstLabel | backend/routes/parse.js:47-53 | the labelled patterns are tried in the listed order: the index found is the first whose capture reads as a positive amount, and it is past the end exactly when none does |
| Amounts.ExtractTotal | backend/routes/parse.js:33-62 | the first labelled pattern, in the listed order, whose amount is positive gives the total, ahead of any later label and of the last ₹ amount; with no such label, non-empty text totals the amount after the last ₹ sign when it reads as a number, else 0; the total is never negative, a non-zero total is an amount read from the text, and empty text totals 0 |
| Amounts.ExtractTotalFallsBackToLastRupee | backend/routes/parse.js:47-60 | with no labelled total, a bill ending in " ₹" and digits totals to their value |
| Amounts.TotalFromRupee | backend/routes/parse.js:55-60 | with no labelled total, a last rupee amount written as plain digits is the total |
| Amounts.NoLabelNoTotal | backend/routes/parse.js:47-53 | when none of the remaining labelled patterns matches, the search runs past the last pattern |
| Amounts.ParseAmountOfDigits | backend/routes/parse.js:50 | `parseFloat` of a run of digits is their decimal value |
| Amounts.RateShapeBelowHundred | backend/routes/parse.js:68 | a captured rate of one or two digits with at most two decimals reads as a number in [0, 100) |
| Amounts.RateOf | backend/routes/parse.js:71 | a rate read from such a capture lies in [0, 100) |
| Amounts.DetectGstRate | backend/routes/parse.js:65-87 | the "GST Rate" label wins, then IGST, then CGST and SGST together (their sum), then a bare percentage, then 18; each rate is its pattern's capture read as a number; the rate is in [0, 200) and below 100 unless CGST and SGST are added |
| Amounts.DetectGstRateDefault | backend/routes/parse.js:85-86 | a text without any percentage gets the generic 18 |
| Amounts.ExtractComponent | backend/routes/parse.js:90-105 | an absent label gives 0; a present one gives `parseFloat` of its first capture, a non-negative amount read from the text |
| Hsn.Candidates | backend/routes/parse.js:112 | every candidate is a 4–8 digit substring of the text |
| Hsn.CandidatesSplit | backend/routes/parse.js:112 | the numbers on either side of a non-word separator are found independently, in order |
| Hsn.CandidatesOfCode | backend/routes/parse.js:112 | a lone 4–8 digit code is the only candidate of its text |
| Hsn.Filtered | backend/routes/parse.js:115-122 | the filter keeps only candidates, drops six-digit PIN-like numbers under an address heading, and keeps something whenever anything qualifies |
| Hsn.FirstNearHsn | backend/routes/parse.js:124-127 | the answer is the first candidate, in text order, that follows "HSN" within 40 non-digits; none is returned exactly when no candidate does |
| Hsn.ExtractHsn | backend/routes/parse.js:108-133 | a labelled HSN match wins; without one, the first number near an "HSN" mention; the result is always "Not found" or a 4–8 digit code occurring in the text |
| Hsn.Choose | backend/routes/parse.js:124-132 | with no number near an "HSN" mention, a code after a table header wins; the choice is always a 4–8 digit code of the text |
| Hsn.ExtractHsnNotFound | backend/routes/parse.js:108-133 | "Not found" exactly when there is no HSN label and no word-bounded 4–8 digit number |
| Hsn.LabelledHsnFound | backend/routes/parse.js:109-110 | a matching HSN label yields its own capture, which is a code |
| Hsn.CandidateHsnFound | backend/routes/parse.js:112-132 | any word-bounded 4–8 digit number yields a code |
| Hsn.ExtractHsnAvoidsPincode | backend/routes/parse.js:115-132 | under an address heading, when a non-PIN candidate exists and no label, HSN mention or table row decides, the code is not PIN-like |
| Gstin.AllStrict | backend/routes/parse.js:137-138 | every listed match has the GSTIN shape and occurs in the text |
| Gstin.StrictFromComplete | backend/routes/parse.js:137 | every word-bounded GSTIN at or after the scan position is listed |
| Gstin.StrictFromFirst | backend/routes/parse.js:137 | the first match the scan lists is the leftmost one, and it lists none exactly when there is none |
| Gstin.FirstStrict | backend/routes/parse.js:421 | the leftmost word-bounded GSTIN of the text, or nothing exactly when there is none; a match has the GSTIN shape and occurs in the text |
| Gstin.ExtractAllGstins | backend/routes/parse.js:135-141 | the list has no duplicates and holds only GSTIN-shaped substrings of the text |
| Gstin.ExtractAllGstinsComplete | backend/routes/parse.js:135-141 | every GSTIN written between word boundaries is in the list |
| SeqUtil.Distinct | backend/routes/parse.js:140 | `[...new Set(xs)]` has no duplicates and the same elements, listed in order of their first appearance in the input |
| Product.InclGst | backend/routes/parse.js:162 | a match of the optional incl-GST group starts with "incl" or "(incl" and, in the bracketed form, ends with ")" |
| Product.FirstTotalFrom | backend/routes/parse.js:161-164 | the position found is the first at which the Total pattern can match (a word-initial "Total", its white space, line terminators included, the optional incl-GST group, then one line to the end), or there is none |
| Product.CutTotal | backend/routes/parse.js:161-164 | the cut text is a prefix of the product text |
| Product.TotalAtOnOneLine | backend/routes/parse.js:162 | on a single line, the pattern matches at every word-initial "Total" |
| Product.CutTotalRemovesTotal | backend/routes/parse.js:161-164 | on a single line, no word-initial "Total" is left after the cut |
| Product.CutTotalAcrossLineSeparator | backend/routes/parse.js:161-164 | the white space after "Total" may span a line separator: "Laptop Total", U+2028, "X" is cut to "Laptop " |
| Product.FirstSixWords | backend/routes/parse.js:167-170 | a text of at most six words is kept whole; a longer one is cut to its first six words |
| Product.FromDescription | backend/routes/parse.js:152-172 | the labelled product text has at most six words and no surrounding white space |
| Product.LabelText | backend/routes/parse.js:145-172 | the label's product text is the cleaned first capture, of at most six words, and "" without a label |
| Product.ExtractProductWithSource | backend/routes/parse.js:144-193 | a non-empty label text wins, then a non-empty text after "Tax Invoice", then the matched product word, then "Not found"; never empty; a keyword answer is a listed product word found in the text |
| Product.ExtractProduct | backend/routes/parse.js:144-193 | never empty; a non-empty label text is the answer; "Not found" comes only from a label or "Tax Invoice" read, or from a text with no product keyword |
| Product.KeywordIsNotPlaceholder | backend/routes/parse.js:189-192 | a product keyword is never the placeholder |
| DateText.MatchDmy | backend/routes/parse.js:251 | a match splits the text into 1–2 day digits, 1–2 month digits and 2–4 year digits around `/` or `-` |
| DateText.MonthIndex | backend/routes/parse.js:267-283 | the month table maps exactly the twelve abbreviations to 0–11 |
| DateText.MatchDayMonth | backend/routes/parse.js:262-264 | a match splits the text into day digits, a month word and four year digits |
| InvoiceDate.NewDate | backend/routes/parse.js:257 | `new Date(y, m, d)` is always a valid calendar day |
| InvoiceDate.NewDateOfValid | backend/routes/parse.js:257 | a valid date (year 100 or later) is rebuilt as itself |
| InvoiceDate.NewDateRollsOver | backend/routes/parse.js:257 | a day past the end of the month rolls over into the next month |
| InvoiceDate.ParseInvoiceDate | backend/routes/parse.js:245-293 | empty text and "Not found" give null; a text of the DD/MM/YY(YY) shape always gives a valid date |
| InvoiceDate.ParseMonthName | backend/routes/parse.js:262-292 | a "D Month YYYY" text with a known month is the date `new Date(year, table month, day)`, a valid date that does not depend on the platform parser (InvoiceDate.MonthNameIgnoresPlatform); any other text is left to the platform parser |
| InvoiceDate.ParseFormatDmy | backend/routes/parse.js:251-258 | a date written DD/MM/YYYY is read back as that date |
| InvoiceDate.ParseFormatDmyShort | backend/routes/parse.js:254 | a date of 2000–2099 written DD/MM/YY is read back as that date |
| InvoiceDate.DmyRoundTrip | backend/routes/parse.js:248-258 | a trimmed text the day/month/year pattern splits into a date's own numbers reads as that date |
| Fields.FirstGluedFrom | backend/routes/parse.js:379-380 | the position found is the first glued "Invoice No", "Bill No" or "GSTIN" label, or there is none |
| Fields.CutGlued | backend/routes/parse.js:379-380 | the cut vendor text is a prefix of the capture |
| Fields.CutGluedRemovesLabel | backend/routes/parse.js:379-380 | on a single line, no glued label is left after the cut |
| Fields.VendorCapture | backend/routes/parse.js:369-372 | the Vendor label's capture wins, then Supplier's, then Company's; a capture exists exactly when one of them matches, and holds only vendor characters |
| Fields.CleanVendor | backend/routes/parse.js:377-381 | the cleaned name uses only characters of the capture and has no surrounding white space |
| Fields.ExtractVendor | backend/routes/parse.js:369-382 | the capture of the first vendor label that matches, cleaned; "Not found" without one; a found vendor uses only vendor characters and is trimmed |
| Fields.InvoiceLabelCapture | backend/routes/parse.js:388-390 | the Invoice label's capture wins over the Bill label's; a capture exists exactly when one matches, and it is 3–40 invoice-number characters of the text |
| Fields.ExtractInvoiceNo | backend/routes/parse.js:386-401 | a labelled number wins; only without a label, the loose INV code; "Not found" exactly when none of them matches; a number found occurs in the text and has at least 3 invoice-number characters |
| Fields.ExtractDateText | backend/routes/parse.js:404-411 | a found date text is a labelled or bare numeric date, or a "D Mon YYYY" date |
| Fields.DayMonthShortIsLong | backend/routes/parse.js:263 | the date finder's short month layout is also read by the long-month pattern of `parseInvoiceDate` |
| Fields.FoundDateParses | backend/routes/parse.js:404-412 | whatever date text the route finds is read into a date without the platform parser |
| Fields.ExtractGstin | backend/routes/parse.js:416-423 | the labelled capture wins; without a label, the leftmost bare GSTIN; "Not found" exactly when neither matches; a found GSTIN has the GSTIN shape once upper-cased and occurs in the text |
| Reconcile.StatedGst | backend/routes/parse.js:433-434 | a truthy "Total GST" wins; otherwise the sum of the three components |
| Reconcile.DeclaredTax | backend/routes/parse.js:426-447 | a stated tax is kept; otherwise, with a total and a positive rate, the tax inside the total is computed, all IGST for an IGST rate, else split in halves |
| Reconcile.ParseTxType | backend/routes/parse.js:466-479 | SALE or PURCHASE (trimmed, any case) is accepted; anything else is a 400 INVALID_TRANSACTION_TYPE |
| Reconcile.ParseTxTypeOfSpelling | backend/routes/parse.js:470-474 | the type is read whatever its letter case and surrounding white space |
| Reconcile.Counterparty | backend/routes/parse.js:487-491 | the other party is the invoice's GSTIN unless it equals the user's own, then "UNKNOWN" |
| Reconcile.PartiesOf | backend/routes/parse.js:481-493 | on a sale the user supplies, on a purchase the user buys; the other side is the counterparty |
| Reconcile.PurchaseMirrorsSale | backend/routes/parse.js:481-493 | a purchase records the parties of the matching sale swapped |
| Reconcile.CbicKeyword | backend/routes/parse.js:505-510 | the HSN code when found, else the lower-cased first word of the product, else "general" |
| Reconcile.FirstFieldIsFirstWord | backend/routes/parse.js:509 | on text without leading white space, the first field of `split(/\s+/)` is the first word |
| Reconcile.VerifiedRate | backend/routes/parse.js:572-583 | the rate the reply states, else 18 |
| Reconcile.Adjust | backend/routes/parse.js:591-616 | without a mismatch against a positive CBIC rate on a bill with a total, nothing changes; with one, the tax is recomputed at the CBIC rate, all IGST or split in halves |
| Reconcile.TotalWithGst | backend/routes/parse.js:637-639 | 0 without a total; otherwise the total plus the declared tax, or the adjusted tax when none is declared |
| Reconcile.BuildRecord | backend/routes/parse.js:619-667 | of the document handed to `new Invoice`: without a recomputation the adjusted tax fields equal the declared ones; with one, the adjusted rate is the CBIC rate and the adjusted tax is the tax at that rate inside the total, to half a paisa, its parts adding up to it within a paisa; the total with GST is the total plus the declared tax, or plus the adjusted tax when none is declared; the flag is rate equality |
| Reconcile.Gstr2aOf | backend/routes/parse.js:678-699 | only a purchase gets an entry, carrying the supplier and the adjusted tax; the vendor or "UNKNOWN", the invoice number or else the saved record's id, and the invoice date or else today |
| Reconcile.ExtractAll | backend/routes/parse.js:426-450 | the extracted total and rate are non-negative, and empty text totals 0 |
| Reconcile.UploadInvoice | backend/routes/parse.js:466-760 | rejected exactly for a bad transaction type (400) or a CBIC rate that reads as NaN (500, since the schema's Number cast refuses NaN and the save throws before anything is stored); otherwise a record of that type with a finite verified rate equal to the CBIC rate, and a GSTR-2A entry exactly for a purchase |
| Reconcile.NotedCbicRateFailsSave | backend/routes/parse.js:752-760 | an upload whose CBIC reply is digits, "%" and a note, such as "18% (default)", is answered with the 500 "Parsed but failed to save invoice" |
| Reconcile.EmptyTextExtracts | backend/routes/parse.js:346-351 | empty text gives no total, the default rate 18 and no tax |
| Reconcile.EmptyDocumentRecord | backend/routes/parse.js:346-351 | a document without text still yields a record with zero amounts and rate 18 |
| CbicReply.RateNumber | backend/routes/parse.js:576-578 | a number reply is read as itself, and an object reply as NaN |
| CbicReply.NotedReplyIsNaN | backend/routes/parse.js:576-578 | a rate reply of digits, "%" and a space-led note, such as "18% (default)", is read by `Number` as NaN |
| CbicReply.StatedRate | backend/routes/parse.js:574-579 | a rate is taken exactly when the reply and its `rate` are truthy |
| CbicReply.PercentReplyRoundTrip | backend/routes/parse.js:574-578 | a reply `{rate: "<digits>%"}` is read as those digits' value |
| TaxSplit.TaxIncludedIsRateOfRemainder | backend/routes/parse.js:437-440 | `total * rate / (100 + rate)` is exactly `rate`% of what remains of the total |
| TaxSplit.TaxIncludedBounds | backend/routes/parse.js:437-440 | the tax inside a non-negative total lies between 0 and the total |
| TaxSplit.HalveTax | backend/routes/parse.js:437-446 | CGST equals SGST, the rounded tax is within half a paisa of the exact one, and the halves sum to it within one paisa |
| TaxSplit.HalvesOfAny | backend/routes/parse.js:603-613 | the same bounds hold for any tax, whatever its sign |
| JsNumber.ParseFloat | backend/routes/parse.js:50 | `parseFloat` of an amount string is non-negative, and finite when it starts with a digit |
| JsNumber.Round2Bounds | backend/routes/parse.js:437-440 | `+x.toFixed(2)` of a non-negative value is within half a paisa of it |
| JsNumber.HalvesOfRounded | backend/routes/parse.js:444-445 | two rounded halves of a rounded amount add up to it within one paisa |
| VoiceInvoice.ToNum | backend/routes/voiceInvoice.js:12-17 | null, undefined and "" give the default; a finite number is itself; an object gives the default |
| VoiceInvoice.ToNumOfGroupedDigits | backend/routes/voiceInvoice.js:12-17 | an amount written with grouping commas is read as its value |
| VoiceInvoice.TaxFromRate | backend/routes/voiceInvoice.js:58-73 | without a total or a positive rate there is no tax; otherwise the tax inside the total is split into CGST and SGST halves, and the taxable value is the rest |
| VoiceInvoice.VerifiedRate | backend/routes/voiceInvoice.js:114-132 | the CBIC rate is positive, or it falls back to the user's rate; the stated positive rate is used; a blank reply gives 18 |
| VoiceInvoice.Adjust | backend/routes/voiceInvoice.js:141-163 | an unconfirmed rate on a bill with a total, against a positive CBIC rate, recomputes the tax at the CBIC rate in halves; otherwise nothing changes |
| VoiceInvoice.StoredRawText | backend/routes/voiceInvoice.js:52 | the stored raw text is null or non-empty |
| VoiceInvoice.SaveVoiceInvoice | backend/routes/voiceInvoice.js:23-245 | 500 exactly when a truthy `rawText` is not a string, or when a text field the body carries is an object the schema's String cast refuses (the save throws); 400 exactly when no field carries data; otherwise the document handed to `new Invoice` is tagged `VOICE`, each of vendor, invoice number, date, GSTIN and HSN is the given value or "Not provided", the invoice-side tax is the tax included in the total at the spoken rate, the verified rate is CBIC's answer (or the spoken rate), a verified record keeps its spoken tax, and the adjusted rate and the adjusted GST, CGST, SGST and IGST are the CBIC correction of `Adjust` (the tax recomputed at the CBIC rate on an unverified record with a total) |
| VoiceInvoice.ObjectVendorFailsSave | backend/routes/voiceInvoice.js:240-245 | a body whose vendor is a plain object, with a total, is answered with the 500 "Failed to save voice invoice" |
| VoiceInvoice.Keyword | backend/routes/voiceInvoice.js:76-79 | never empty: the trimmed HSN when it has text, "general" for a falsy one |
| VoiceEntry.FirstOf | frontend/app/voice-entry/page.tsx:41-43 | the first pattern's capture when it matches, else the second's |
| VoiceEntry.VendorOf | frontend/app/voice-entry/page.tsx:41-47 | the trimmed "vendor" capture when that label matches, else the trimmed "from" capture; a vendor exactly when one of them matches, using only vendor characters |
| VoiceEntry.InvoiceNoOf | frontend/app/voice-entry/page.tsx:51-68 | the "invoice number" capture, else the "bill no" capture, else (only when neither label matches) the loose INV capture, with its white space removed; the number has no spaces and only invoice characters; it is missing exactly when no label and no loose INV code matches |
| VoiceEntry.CompactInvoiceNo | frontend/app/voice-entry/page.tsx:65-67 | spaces removed, only invoice-number characters remain |
| VoiceEntry.DateOf | frontend/app/voice-entry/page.tsx:71-84 | the labelled numeric date wins, then the labelled month-name date, then a bare numeric date, each its pattern's capture; a found date has the numeric or the day-month-year shape; missing exactly when no date pattern matches |
| VoiceEntry.ReadGstin | frontend/app/voice-entry/page.tsx:88-108 | after a spoken label the compacted block is kept only when it has the tested shape; without one, a GSTIN is found exactly when a bare one is said, and it is the leftmost such word upper-cased |
| VoiceEntry.ScannedGstin | frontend/app/voice-entry/page.tsx:100-108 | the fallback scan finds a GSTIN exactly when one occurs between word boundaries, and it is the leftmost one, upper-cased |
| VoiceEntry.GstinAsWritten | frontend/app/voice-entry/page.tsx:94-108 | as written, only 14-character strings are accepted, so no real GSTIN ever is |
| VoiceEntry.GstinOf | frontend/app/voice-entry/page.tsx:94-108 | as intended, an accepted GSTIN has 15 characters of the loose shape |
| VoiceEntry.LabelledGstinIsLost | frontend/app/voice-entry/page.tsx:94-99 | a GSTIN said after its label is lost as written and kept as intended |
| VoiceEntry.BareGstinIsLost | frontend/app/voice-entry/page.tsx:100-108 | a GSTIN said alone is lost as written and read as intended |
| VoiceEntry.HsnOf | frontend/app/voice-entry/page.tsx:111-117 | the labelled "hsn code" capture wins over the bare one; a found code is 4–8 digits of the text; missing exactly when neither HSN pattern matches |
| VoiceEntry.PositiveAmount | frontend/app/voice-entry/page.tsx:130-134 | the amount is kept exactly when, commas removed, it reads as a positive number |
| VoiceEntry.TotalAsWritten | frontend/app/voice-entry/page.tsx:121-135 | as written, no total is read when the labelled pattern does not match |
| VoiceEntry.TotalOf | frontend/app/voice-entry/page.tsx:121-135 | as intended, the total is positive and is the amount group of whichever pattern matched |
| VoiceEntry.RupeesFirstTotalIsLost | frontend/app/voice-entry/page.tsx:125-134 | "rupees 500 total" gives no total as written and 500 as intended |
| VoiceEntry.RateOf | frontend/app/voice-entry/page.tsx:138-151 | a spoken "gst rate N%" is preferred over "N percent", and the rate is `Number` of that capture; a rate is in [0, 100); missing exactly when neither rate pattern matches |
| VoiceEntry.RateValue | frontend/app/voice-entry/page.tsx:147-150 | `Number` reads a rate-shaped capture as a finite value below 100 |
| VoiceEntry.Checks | frontend/app/voice-entry/page.tsx:154-161 | exactly the absent fields are pushed, in check order |
| VoiceEntry.Missing | frontend/app/voice-entry/page.tsx:153-161 | the list names exactly the absent fields, in the form's order |
| VoiceEntry.ExtractFromText | frontend/app/voice-entry/page.tsx:31-164 | as intended, with the corrected total and GSTIN readers: each field is its extractor's answer, and the missing list names exactly the fields not read, in the form's order |
| VoiceEntry.NothingSaidAllMissing | frontend/app/voice-entry/page.tsx:35-163 | an empty transcript reports all seven fields missing, in order |
| VoiceEntry.EmptyTextFieldsAbsent | frontend/app/voice-entry/page.tsx:35-151 | an empty transcript gives no field at all |
| Gstin.FirstSpokenLeftmost | frontend/app/voice-entry/page.tsx:102-104 | the scan returns the leftmost loose GSTIN of the text |
| Gstin.FirstSpokenFromFinds | frontend/app/voice-entry/page.tsx:102-104 | the scan finds a loose GSTIN exactly when one occurs, and what it finds is one |
| Gstin.StrictIsFullSpoken | frontend/app/voice-entry/page.tsx:97 | every GSTIN has the full 15-character loose shape and never the 14-character one as written |
| Gstin.StrictAtIsSpoken | frontend/app/voice-entry/page.tsx:103 | a GSTIN between word boundaries is a full loose match and never a match as written |
| GstRates.FirstAlias | backend/routes/gstRates.js:34 | the alias reported is the first of the list that occurs in the text; none is reported exactly when no alias occurs |
| GstRates.FirstEntry | backend/routes/gstRates.js:28-31 | the entry chosen is the first whose aliases occur in the text |
| GstRates.ResolveRate | backend/routes/gstRates.js:15-41 | the answer is by HSN exactly when the trimmed code is listed with a truthy rate, and then carries that rate; otherwise the first keyword entry that applies, with the first of its aliases that occurs; "No match" with a null rate exactly when neither applies |
| GstRates.ByKeywordIn | backend/routes/gstRates.js:28-40 | the keyword answer is the first entry that applies, or "No match" exactly when none does |
| GstRates.ResolveRateStableUnderAppend | backend/routes/gstRates.js:28-38 | adding keyword entries at the end never changes an answer already found |
| Gstr1.Select | backend/utils/gstr1.js:20-23 | every selected invoice is B2B, or every one B2C, as asked |
| Gstr1.GenerateGstr1 | backend/utils/gstr1.js:1-33 | B2B and B2C are the invoices of each kind, in order; the summary has a row for exactly the codes that occur, each the totals over that code's invoices |
| Gstr1.RowStep | backend/utils/gstr1.js:7-18 | adding an invoice adds its three values into its code's row |
| Gstr1.RowStepOther | backend/utils/gstr1.js:7-18 | adding an invoice leaves every other code's row alone |
| Gstr1.AbsentCodeRow | backend/utils/gstr1.js:7-14 | a code not yet seen starts with zero totals |
| Gstr1.PartitionCounts | backend/utils/gstr1.js:20-23 | every invoice lands in exactly one of the two lists (as a multiset) |
| Gstr1.WithHsnSublist | backend/utils/gstr1.js:16-18 | the invoices summed under a code all carry it and are drawn from the list |
| Gstr1.WithHsnNonEmpty | backend/utils/gstr1.js:7-14 | a code has invoices exactly when it occurs |
| Outward.GenerateGstr3b | backend/utils/gstr3b.js:1-19 | the outward supplies are the three column totals of the invoices, and zero for none |
| Outward.TotalAppend | backend/utils/gstr3b.js:4-8 | totals of two batches one after the other add up |
| Outward.SingleCodeRowIsOutward | backend/utils/gstr3b.js:1-19 | for a period of one HSN code, the GSTR-1 row carries exactly the GSTR-3B outward totals |
| Itc.CalculateItc | backend/utils/itcCalculator.js:1-24 | positive IGST is claimed in full; else positive CGST or SGST are claimed together; else nothing is eligible and the whole GST is ineligible; never both non-zero |
| Itc.CreditCoversTax | backend/utils/itcCalculator.js:11-19 | on a purchase taxed as all IGST or all CGST+SGST, eligible plus ineligible is the total GST |
| Itc.AgreesWithGstr2bRule | backend/utils/itcCalculator.js:11-16 | on such a purchase the rule claims the same as the GSTR-2B route, which claims the whole GST |
| Gstr2b.Eligible | backend/routes/gstr2b.js:24 | the whole stored GST is claimed, or 0 when it is missing |
| Gstr2b.RowOf | backend/routes/gstr2b.js:23-36 | the row copies supplier, number and GST, claims the GST and marks nothing ineligible |
| Gstr2b.Generate | backend/routes/gstr2b.js:20-44 | one row per entry in order; the eligible total is the rounded sum of the claims and the ineligible total is 0 |
| Gstr2b.RoundedTotalBounds | backend/routes/gstr2b.js:40-41 | the rounded total is within half a paisa of the exact sum of non-negative claims |
| Gstr2b.PurchaseClaimsAdjustedTax | backend/routes/gstr2b.js:23-28 | a purchase saved by the upload route is claimed at its adjusted total GST |
| Gstr3bSummary.ParseMonth | backend/routes/gstr3b.js:10-23 | a "YYYY-MM" query is read as it stands; anything else falls back to the current month and its label |
| Gstr3bSummary.FallbackLabelRoundTrip | backend/routes/gstr3b.js:13-23 | asking explicitly for the label of the current month gives the same period as asking for nothing |
| Gstr3bSummary.WindowMonth | backend/routes/gstr3b.js:25 | the window starts in a real calendar month, whatever the month index |
| Gstr3bSummary.WindowEnds | backend/routes/gstr3b.js:25-26 | the window runs from the first of a month to the first of the next |
| Gstr3bSummary.WindowIsOneMonth | backend/routes/gstr3b.js:25-32 | a valid date is in the window exactly when it falls in that calendar month |
| Gstr3bSummary.InPeriod | backend/routes/gstr3b.js:29-32 | exactly the stored invoices dated in the window are selected, each as many times as it is stored, so repeated uploads of one bill are all counted |
| Gstr3bSummary.Taxable | backend/routes/gstr3b.js:60 | the taxable value, else the invoice total, else 0 |
| Gstr3bSummary.Component | backend/routes/gstr3b.js:62-64 | the adjusted amount when present (even 0), else the invoice's, else 0 |
| Gstr3bSummary.TallyIsSums | backend/routes/gstr3b.js:53-70 | the loop's counts split the invoices and its sums are the column sums |
| Gstr3bSummary.Summarize | backend/routes/gstr3b.js:45-84 | the counts split the invoices into B2B and B2C, each total is its column's sum, total tax is the sum of the three, and no invoices give zeros |
| Gstr3bSummary.MonthSummary | backend/routes/gstr3b.js:10-84 | the summary covers exactly the invoices of the month asked for, among the requesting user's invoices: their count, the B2B count, the taxable total and the IGST, CGST and SGST totals are the sums over that month's invoices, and the total tax is the three taxes added |
| Gstr3bSummary.UploadedInvoiceContributes | backend/routes/gstr3b.js:53-64 | an uploaded invoice enters with its adjusted tax, its total as taxable value, and as B2B exactly when a GSTIN was read |
| FilingPage.KindOf | frontend/app/gst-filing/page.tsx:124-125 | B2B exactly when the first truthy GSTIN field is not "Not found" |
| FilingPage.Taxable | frontend/app/gst-filing/page.tsx:142-149 | a stored taxable value is kept; otherwise, with a total and a positive rate, the taxable value plus its tax is the total; otherwise the total |
| FilingPage.GstFiled | frontend/app/gst-filing/page.tsx:151-154 | the filed GST is the invoice's or the adjusted amount; the adjusted one for an unverified invoice, the invoice's for a verified one; 0 only when both are |
| FilingPage.Corrected | frontend/app/gst-filing/page.tsx:156-160 | corrected exactly when the invoice states a rate and a different positive CBIC rate exists |
| FilingPage.Normalize | frontend/app/gst-filing/page.tsx:123-180 | each normalised field follows its `??` chain read through `toNumSafe`: the total, the invoice rate, the invoice GST amount and the CBIC rate (which falls back to the invoice rate); the taxable value and the filed GST follow their rules, and a row is corrected exactly when both rates are set and differ |
| FilingPage.OfKind | frontend/app/gst-filing/page.tsx:182-183 | the rows of one kind, all of them and only them, each as many times as it occurs in the input |
| FilingPage.KindsPartition | frontend/app/gst-filing/page.tsx:182-183 | B2B and B2C split the rows between them |
| FilingPage.AverageRate | frontend/app/gst-filing/page.tsx:184-185 | the average rate times the taxable total is 100 times the GST filed, and 0 with no taxable total |
| FilingPage.FilingSummary | frontend/app/gst-filing/page.tsx:116-185 | one normalised row per invoice in order; the totals are the sums of the rows; B2B and B2C partition them; the average follows |
| FilingPage.Totals | frontend/app/gst-filing/page.tsx:120-165 | the running totals are the sums of taxable values and filed GST |
| FilingPage.UniformRateIsAverage | frontend/app/gst-filing/page.tsx:164-185 | when every row files at one rate, the average rate shown is that rate |
| FilingPage.CorrectedMeansRatesDiffer | frontend/app/gst-filing/page.tsx:156-162 | a row marked corrected has a CBIC rate that differs from its invoice rate |
| FilingPage.NoCbicRateNoCorrection | frontend/app/gst-filing/page.tsx:137-160 | an invoice with no adjusted or verified rate is never marked corrected |
| SafeNumber.Strip | frontend/app/gst-filing/page.tsx:31 | the stripped text has no white space and no one-character token, and uses only characters of the input |
| SafeNumber.ToNumSafe | frontend/app/gst-filing/page.tsx:9-38 | null and undefined give 0; a finite number is itself; NaN gives 0; booleans give 1 or 0; a plain numeric string gives its value |
| SafeNumber.ToNumSafeIdempotent | frontend/app/gst-filing/page.tsx:9-38 | a result stored back as a number reads as itself |
| SafeNumber.WrapperUnwraps | frontend/app/gst-filing/page.tsx:12-22 | an Extended-JSON wrapper reads as the value it wraps |
| SafeNumber.SinglePropertyUnwraps | frontend/app/gst-filing/page.tsx:23-24 | an object with a single non-wrapper property reads as that property's value |
| SafeNumber.PlainObjectIsZero | frontend/app/gst-filing/page.tsx:23-25 | an object with two or more properties and no wrapper key reads as 0 |
| SafeNumber.StripGroupedDigits | frontend/app/gst-filing/page.tsx:31 | stripping digits with grouping commas removes exactly the commas |
| SafeNumber.MarkedAmountRoundTrip | frontend/app/gst-filing/page.tsx:30-34 | "₹1,25,000" and the like, a currency token before grouped digits, read as the amount |
| SafeNumber.UnstrippedMarkIsZero | frontend/app/components/dashboard/gstFiling.tsx:56-60 | a mark no token strips, before grouped digits, makes the string read as 0 |
| FilingDashboard.SafeAsWritten | frontend/app/components/dashboard/gstFiling.tsx:37-65 | the panel's conversion as written: finite numbers as themselves, nullish as 0 |
| FilingDashboard.PanelSafe | frontend/app/components/dashboard/gstFiling.tsx:37-65 | the same conversion with the rupee sign stripped |
| FilingDashboard.RupeeAmountIsZeroAsWritten | frontend/app/components/dashboard/gstFiling.tsx:57 | as written, "₹" followed by grouped digits reads as 0 |
| FilingDashboard.RupeeAmountRoundTrip | frontend/app/components/dashboard/gstFiling.tsx:56-60 | as intended, "₹" followed by grouped digits reads as their value |
| FilingDashboard.KeyOf | frontend/app/components/dashboard/gstFiling.tsx:98 | a truthy string `_id` is the key; with no id, id or file name the key is the first 40 characters of the JSON text |
| KeyedDedupe.FirstPerKeyProps | frontend/app/components/dashboard/gstFiling.tsx:95-101 | the reference de-duplication keeps items of the input, one per key and every key |
| KeyedDedupe.Dedupe | frontend/app/components/dashboard/gstFiling.tsx:96-101 | for truthy items the scan equals the first-per-key reference; in any case keys are distinct, all covered, and items come from the input |
| FilingDashboard.LoadUnique | frontend/app/components/dashboard/gstFiling.tsx:86-101 | a null or undefined item makes the load fail to an empty list; a list of objects is de-duplicated as the reference |
| FilingDashboard.FirstNonZero | frontend/app/components/dashboard/gstFiling.tsx:104-114 | the first non-zero of three amounts, and 0 only when all are |
| FilingDashboard.GstAmount | frontend/app/components/dashboard/gstFiling.tsx:127-130 | the invoice amount, else the adjusted one, else the non-negative gap between total and taxable value |
| FilingDashboard.MapInvoice | frontend/app/components/dashboard/gstFiling.tsx:103-156 | as intended, reading amounts with the rupee sign stripped: the total and rate are the first non-zero of their fields; a stored invoice GST amount is shown as it is; the taxable value and GST follow their fallback chains; the vendor falls back to "Unknown" and the GSTIN to the dash |
| FilingDashboard.MappedGstIsRateShare | frontend/app/components/dashboard/gstFiling.tsx:116-130 | a mapped row with no GST and no taxable value stored, but a positive total and rate, shows the GST at that rate of the taxable value, and the two add up to the total |
| FilingDashboard.DerivedGstIsRateShare | frontend/app/components/dashboard/gstFiling.tsx:116-130 | with no stored GST, the GST derived from a total and rate is `rate`% of the derived taxable value |
| FilingDashboard.RowGstIsShownAmount | frontend/app/components/dashboard/gstFiling.tsx:219-222 | the panel's recomputation of a row's GST equals the amount the row displays |
| FilingDashboard.PanelOf | frontend/app/components/dashboard/gstFiling.tsx:217-228 | the panel's totals are the row sums, its average rate is the filing page's formula, and its counts split the rows |
| FilingDashboard.CountsPartition | frontend/app/components/dashboard/gstFiling.tsx:226-228 | every row is B2B or B2C, never both |
| FilingDashboard.ExportRowOf | frontend/app/components/dashboard/gstFiling.tsx:177-196 | the taxable value is the row's rounded to paise; the GST is the row's invoice amount, else its adjusted amount, else the gap between total and rounded taxable value, rounded to paise; both are whole paise; the rate is the first non-zero of the two rates |
| FilingDashboard.Round2OnGrid | frontend/app/components/dashboard/gstFiling.tsx:179-180 | rounding to two decimals lands on whole paise |
| FilingDashboard.SumOnGrid | frontend/app/components/dashboard/gstFiling.tsx:183-184 | sums of whole paise are whole paise |
| FilingDashboard.GenerateExport | frontend/app/components/dashboard/gstFiling.tsx:174-205 | one exported row per invoice; the totals are the sums of the rounded rows and are whole paise |
| JsValues.ObjectTextIsNaN | backend/routes/voiceInvoice.js:15 | the text of an object has no comma and reads as NaN |

## Left out

- File upload, PDF parsing, OCR, the Python CBIC script, database reads and writes, `fetch`, React state, XLSX export and logging are left out. They are I/O. The database is a list of stored records. The CBIC script's output is an input `CbicReply.Reply`.
- The clock is a parameter. This covers `Date.now` in the saved file name, `new Date()` in the GSTR-2A fallback and in the GSTR-3B month, and `generatedAt`.
- `new Date(string)`, the last fallback of `parseInvoiceDate`, is left out. It is platform-defined, so it is a parameter `platformParse`.
- `toLocaleString("en-IN")` display strings, the verification messages and the `₹…` display fields are left out. They are formatting, not arithmetic.
- `JSON.stringify(it)` in the dashboard key and `String(n)` of a number are parameters. Their output is platform-defined.
- Floating point is not modelled: JavaScript numbers are exact reals. Infinity, hexadecimal and exponent literals in `Number`/`parseFloat` read as NaN, which no amount string of this code produces.
- `JsValues.JsValue` has no arrays. An object is a list of distinct keys. `Object.values` order follows that list, not JavaScript's integer-key-first ordering. Keys that name inherited `Object.prototype` members (`__proto__`, `constructor`, `toString`, `valueOf`, …) are not modelled: the model looks them up as absent, while the code finds the inherited member. So an HSN code "constructor" gets a rate from backend/routes/gstRates.js:19, such a code gets no row in the per-HSN summary of backend/utils/gstr1.js:7, and such a dashboard key is never stored by frontend/app/components/dashboard/gstFiling.tsx:99.
- Case mapping covers ASCII letters only; no Unicode case folding. `\s` is the set of white-space characters listed in `JsText.IsSpace`.
- The second `gstinBlock` alternative of the voice page (line 92) has one capture group, so `gstinBlock[2]` is always undefined for it. The model therefore goes straight to the strict fallback, which is what the code does.
- Express query values that are arrays are left out. A `month` of `?month=a&month=b` is taken to be absent.
- Gstr3bSummary.ParseMonth: the current date is required to have a year of 0 or later, so that its label can be written.
- Hsn.Choose: the last resort, the first filtered candidate or else the first candidate, is stated only through ExtractHsnAvoidsPincode.
- Product.ExtractProduct: the trailing-label strips of both the label and the "Tax Invoice" branch end in `$ ` (end of input, then a space), which can never match, so they are no-ops and are modelled as such.
- Fields.ExtractDateText: states the shape of the date text found, not which of the two patterns supplied it.
- Reconcile.ExtractAll: states only the bounds; each field is its extractor's answer by construction.
- VoiceEntry.TotalAsWritten: states only that no total comes without the labelled pattern; the finding below shows what it loses.
- TaxSplit.HalveTax: states bounds on the rounded halves, not their exact values.
- VoiceEntry.ExtractFromText: composes the corrected readers TotalOf and GstinOf. The page as written (TotalAsWritten, GstinAsWritten) leaves those two fields missing in the cases listed under "## Findings".
- FilingDashboard.MapInvoice: reads amounts with PanelSafe, which strips the real rupee sign. The panel as written (SafeAsWritten) reads a "₹" amount as 0, as listed under "## Findings".
- SafeNumber.ToNumSafe: strings containing currency tokens are described by the round-trip lemmas, not by the function's own contract.
- Reconcile.BuildRecord: the record is the document handed to `new Invoice`. Its `totalWithGst` is computed but not stored, because it is not a path of the invoice schema (backend/models/Invoice.js:14-83) and the store drops it.
- VoiceInvoice.SaveVoiceInvoice: the record is the document handed to `new Invoice`. Its `source` and `totalWithGst` are computed but not stored, because neither is a path of the invoice schema. A text field that the String cast accepts is kept as given; the string the cast makes of it (a number's digits, an object's `_id`) is left to the store.
- Itc.CalculateItc: a missing component is read as NaN. This matches `undefined > 0` being false and `undefined || 0` being 0. String-valued components are not modelled.

Where the code and its design notes disagree, the model follows the code:

- `cleanText` is not idempotent (TextCleaning.CleanTextNotIdempotent).
- The stated tax is `extractTotalGST(text) || cgst + sgst + igst`. A "Total GST" label therefore beats the component sum, not the other way round (Reconcile.StatedGst).
- The GSTR-1 split tests `gstin !== "Not found"`, so an invoice with no GSTIN field at all counts as B2B (Gstr1.IsB2b).
- The GSTR-3B route reads `supplierGstin`, but the upload route stores `supplierGSTIN`. The supplier field is never seen (Gstr3bSummary.StoredOf).
- On the voice route, the CBIC rate falls back to the user's rate, which may be 0 or negative (VoiceInvoice.VerifiedRate).
- On the upload route, a CBIC rate that is not a number, such as "18% (default)", reads as NaN. The Number cast of the invoice schema (backend/models/Invoice.js:40) then refuses the document, so the upload fails with a 500 and nothing is stored (Reconcile.UploadInvoice, Reconcile.NotedCbicRateFailsSave).
- CGST and SGST are each rounded separately, so their sum may differ from the rounded total by one paisa (TaxSplit.HalveTax).

## Findings

| source | as written | input that shows it | evidently intended | confidence | as-written member | corrected member |
|---|---|---|---|---|---|---|
| frontend/app/voice-entry/page.tsx:125-134 | the second total pattern, rupees first, captures the amount in group 1 and the keyword in group 2. The code prefers group 2, so it picks the keyword, which reads as NaN, so no total is set | "rupees 500 total" | the amount group of whichever pattern matched: a total of 500 | high; not executed | VoiceEntry.TotalAsWritten (shown by VoiceEntry.RupeesFirstTotalIsLost) | VoiceEntry.TotalOf |
| frontend/app/voice-entry/page.tsx:97 | `^\d{2}[A-Z]{5}\d{4}[A-Z0-9]{3}$` accepts 14 characters, so a real 15-character GSTIN is never accepted, labelled or bare (lines 102-104 use the same count) | "gstin 27ABCDE1234F1Z5", or "27ABCDE1234F1Z5" alone | a 15-character GSTIN (two digits, five letters, four digits, four alphanumerics) is accepted | high; not executed | VoiceEntry.GstinAsWritten (shown by VoiceEntry.LabelledGstinIsLost and VoiceEntry.BareGstinIsLost) | VoiceEntry.GstinOf |
| frontend/app/components/dashboard/gstFiling.tsx:57 | the rupee alternative of the strip pattern is the mis-encoded "â‚¹". The real sign "₹" is never stripped, so a formatted amount reads as NaN and then 0 | "₹1,25,000" | the amount 125000, as the filing page's own `toNumSafe` reads it | medium; not executed | FilingDashboard.SafeAsWritten (shown by FilingDashboard.RupeeAmountIsZeroAsWritten) | FilingDashboard.PanelSafe (with FilingDashboard.RupeeAmountRoundTrip) |
