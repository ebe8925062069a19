# Quotation program — verified model of the quotation core

The quotation program is a desktop tool for drawing up price quotations. It loads a
product catalogue (material code, name, specification, stock quantity, tax-inclusive
unit price) from a spreadsheet and lets the user search it by specification. A product
is added to the quotation with a double click. The program keeps a running total and
writes that total out in capitalised Chinese financial numerals (大写金额), e.g.
壹拾玖元捌角.

This project models two parts of `Quotation_program-V7.py` in Dafny and proves
properties of them.

* `ChineseAmount.dfy` covers the converter `to_chinese_amount`:
  * `ToChineseAmount` is an imperative method. It walks the integer digits from the most significant one and keeps a "zero pending" flag.
  * It is proved equal to the functional specification `AmountWords`.
  * Properties are proved about that specification: how many 零 the words hold and where, where 万 and 亿 appear, that every non-zero digit is written, the layout around 元, the 整 rule, and which amounts fail.
* `Quotation.dfy` covers the quotation window's bookkeeping. The class `QuotationApp` holds:
  * the full catalogue;
  * the rows shown under the current search;
  * the quotation lines;
  * the total and its capitalised form.

  Its methods mirror the program's handlers for loading, searching, adding, deleting, clearing and totalling. Each is proved against a specification function (`Added`, `Removed`, `Filtered`, `Total`), and lemmas state what those functions guarantee. Every method keeps the class invariant `Valid()`: the total field equals the sum of the line subtotals.
* `Wrappers.dfy` holds the `Option` and `Result` types.

Money is integer cents throughout. The program keeps prices and subtotals as floats
printed to two decimals. The converter is modelled on the split of an amount into yuan,
jiao and fen (`SplitCents`).

The converter is modelled as the code is written. The usual statement of the
capitalisation rules differs from the code in two places, and the model follows the code:

* 万 and 亿 are written only as the unit of a non-zero digit. They are never re-stamped over a zero digit. So 100000 yuan is written 壹拾元整, the same as 10 yuan (`TenAndHundredThousandCollide`).
* A lone 分 gets no 零 before it: 5 fen is written 零元伍分, and 1.05 yuan is written 壹元伍分.

## Model

| member | source | states |
|---|---|---|
| ChineseAmount.Digits | Quotation_program-V7.py:710-711 | the decimal digits of the integer part: at least one digit, their value is the amount, and a leading zero only for 0 itself |
| ChineseAmount.DigitsLength | Quotation_program-V7.py:711-716 | the digit string has at most k digits exactly when the amount is below 10^k |
| ChineseAmount.RoutineTables | Quotation_program-V7.py:705-706 | the unit table has 17 entries, every digit word is one distinct character, and no unit contains a digit word |
| ChineseAmount.WordsStep | Quotation_program-V7.py:717-723 | one step of the digit loop: a zero digit adds nothing; a non-zero digit after a zero adds 零 then its digit word and unit; any other non-zero digit adds its digit word and unit |
| ChineseAmount.FractionWords | Quotation_program-V7.py:725-733 | the fraction words are empty exactly when jiao and fen are both zero, never contain 零, 整 or 元, and decode back to the jiao and fen digits |
| ChineseAmount.ToChineseAmount | Quotation_program-V7.py:703-742 | the loop with its pending-zero flag yields exactly `AmountWords`: the integer words (零 when empty), then 元, then the fraction words (整 when empty), or the unit-table overrun error |
| ChineseAmount.OverrunIff | Quotation_program-V7.py:705 | the converter fails exactly when the integer part has more than 17 digits (amount at least 10^17), and the failure is the unit-table overrun |
| ChineseAmount.ZeroCount | Quotation_program-V7.py:713-723 | for any tables of the routine's shape, the integer words contain exactly one 零 per run of zero digits that is followed by a non-zero digit |
| ChineseAmount.WordsZeroIsFollowed | Quotation_program-V7.py:717-723 | in the integer words every 零 is followed by a character other than 零: no 零零 and no trailing 零 |
| ChineseAmount.ZeroPlaceholders | Quotation_program-V7.py:713-723 | for the routine's own tables: one 零 per zero run that ends at a non-zero digit, never 零零 and never a trailing 零 |
| ChineseAmount.MarkerCount | Quotation_program-V7.py:717-723 | a character that appears in exactly two unit positions occurs once for each of those positions whose digit is non-zero |
| ChineseAmount.MarkersOnNonZeroDigits | Quotation_program-V7.py:705-723 | 万 occurs once for each non-zero digit at position 4 or 12 and 亿 once for each non-zero digit at position 8 or 16; there are no others |
| ChineseAmount.DigitWordCount | Quotation_program-V7.py:717-723 | for any tables of the routine's shape, each non-zero digit word occurs exactly as often as that digit occurs |
| ChineseAmount.EveryDigitWritten | Quotation_program-V7.py:706-723 | every non-zero digit is written exactly once: the count of its numeral equals its count among the digits |
| ChineseAmount.CharAbsent | Quotation_program-V7.py:717-723 | a character that is neither a digit word nor part of any unit never occurs in the integer words |
| ChineseAmount.NoYuanInWords | Quotation_program-V7.py:705-723 | the integer words never contain 元 |
| ChineseAmount.WordsStart | Quotation_program-V7.py:717-723 | the integer words of a number with a non-zero leading digit start with that digit's numeral |
| ChineseAmount.YuanWordsStart | Quotation_program-V7.py:717-737 | the integer words are empty exactly for 0 yuan; otherwise they start with the numeral of the leading digit, never 零 |
| ChineseAmount.SplitAtYuan | Quotation_program-V7.py:742 | when the part before 元 holds no 元, the joined text splits back at its first 元 into the two parts joined |
| ChineseAmount.AmountSplit | Quotation_program-V7.py:735-742 | before 元 stands 零 for 0 yuan and the integer words otherwise; after 元 stands 整 when both fraction digits are zero and the fraction words otherwise |
| ChineseAmount.AmountLayout | Quotation_program-V7.py:735-742 | below 10^17 yuan the converter succeeds; the part before 元 is 零 exactly for 0 yuan and otherwise starts with the leading digit; 整 follows exactly when jiao and fen are zero; the fraction decodes back to jiao and fen |
| ChineseAmount.SplitCents | Quotation_program-V7.py:710-731 | an amount of whole cents splits into yuan, jiao and fen that recompose it; a loss under one yuan splits as zero; a loss of one yuan or more is the negative-amount error |
| ChineseAmount.TenAndHundredThousandCollide | Quotation_program-V7.py:705-723 | 10 yuan and 100000 yuan are both written 壹拾元整 |
| ChineseAmount.LeadingOneWords | Quotation_program-V7.py:717-723 | a one followed by zeros is written as 壹 and the unit of its position |
| ChineseAmount.ZerosAddNothing | Quotation_program-V7.py:718-719 | trailing zero digits add nothing to the integer words |
| ChineseAmount.NineteenEightyWords | Quotation_program-V7.py:703-742 | 19.80 yuan is written 壹拾玖元捌角 |
| ChineseAmount.ThousandFiveWords | Quotation_program-V7.py:717-723 | 1005 yuan is written 壹仟零伍元整: the two zeros give one 零 |
| ChineseAmount.FiveFenWords | Quotation_program-V7.py:725-742 | 0.05 yuan is written 零元伍分, with no 零 before 分 |
| Quotation.TotalConcat | Quotation_program-V7.py:577-581 | the total of two runs of lines is the sum of their totals |
| Quotation.TotalUpdate | Quotation_program-V7.py:556-581 | replacing one line changes the total by the difference of the old and new subtotals |
| Quotation.FindCode | Quotation_program-V7.py:548-554 | the search finds the first line with the code, and finds none exactly when no line carries it |
| Quotation.FindFirst | Quotation_program-V7.py:548-554 | a line with the code and none before it is the one the search stops at |
| Quotation.AddedQuantity | Quotation_program-V7.py:535-573 | adding a product raises the quoted quantity of its code by one and leaves every other code's quantity unchanged |
| Quotation.AddedCodes | Quotation_program-V7.py:548-570 | after adding, the quoted codes are the previous ones plus the product's code |
| Quotation.AddedShape | Quotation_program-V7.py:548-570 | adding an already quoted product keeps the line count and adding a new one adds one line; unique codes stay unique; subtotals stay quantity times price |
| Quotation.AddedTotal | Quotation_program-V7.py:556-573 | when subtotals are quantity times price and the product's price is unchanged, adding it raises the total by exactly its unit price |
| Quotation.RemovedTotal | Quotation_program-V7.py:612-617 | deleting the selected lines lowers the total by exactly their subtotals |
| Quotation.RemovedFrom | Quotation_program-V7.py:612-617 | the lines left are exactly the unselected lines: every surviving line was an unselected one, and every unselected line survives |
| Quotation.RemovedOne | Quotation_program-V7.py:612-617 | deleting one selected line removes that line and keeps the others in their order |
| Quotation.NoneRemoved | Quotation_program-V7.py:612-617 | a selection naming no existing line removes nothing |
| Quotation.TrimStart | Quotation_program-V7.py:522 | removes exactly the leading whitespace: a suffix of the input that does not start with whitespace, with only whitespace cut off |
| Quotation.TrimEnd | Quotation_program-V7.py:522 | removes exactly the trailing whitespace: a prefix of the input that does not end with whitespace, with only whitespace cut off |
| Quotation.Strip | Quotation_program-V7.py:522 | the stripped query occurs in the query with only whitespace before and after it, and neither starts nor ends with whitespace |
| Quotation.TrimmedParts | Quotation_program-V7.py:522 | a suffix left after cutting leading whitespace, cut down to a prefix before trailing whitespace, sits in the original text with only whitespace around it and neither starts nor ends with whitespace |
| Quotation.LowerChar | Quotation_program-V7.py:522-529 | an upper-case ASCII letter maps to its lower-case letter, anything else is kept, and the result is never upper case |
| Quotation.Lower | Quotation_program-V7.py:522-529 | keeps the length and lower-cases each character in place |
| Quotation.FilterEmptyTermKeepsAll | Quotation_program-V7.py:531-533 | an empty search term shows the whole catalogue in order |
| Quotation.FilterMembership | Quotation_program-V7.py:528-533 | a row is shown exactly when it is in the catalogue and the term is empty or occurs in its lower-cased specification |
| Quotation.FilterConcat | Quotation_program-V7.py:528-533 | the shown rows keep catalogue order: filtering two parts gives the first part's rows then the second's |
| Quotation.FilterIdempotent | Quotation_program-V7.py:521-533 | searching the shown rows again with the same term shows the same rows |
| Quotation.WordsShownEmpty | Quotation_program-V7.py:589-593 | the capitalised total is left empty exactly when the total is a loss of one yuan or more or reaches 10^17 yuan |
| Quotation.ZeroInWords | Quotation_program-V7.py:619-623 | an empty quotation's total reads 零元整 |
| Quotation.ExampleLines | Quotation_program-V7.py:548-581 | adding one product once and a different product twice gives two lines whose total is the first price plus twice the second |
| Quotation.QuotationExample | Quotation_program-V7.py:535-593 | adding a 12.50 product once and a 3.65 product twice gives two lines totalling 19.80, written 壹拾玖元捌角 |
| Quotation.SumSubtotals | Quotation_program-V7.py:577-581 | the summing loop over the quotation lines yields their total |
| Quotation.CapitalisedTotal | Quotation_program-V7.py:589-593 | the converter's words for the total, or the empty text exactly when the total is a loss of one yuan or more or reaches 10^17 yuan |
| Quotation.QuotationApp.constructor | Quotation_program-V7.py:29 | a new window has an empty catalogue, shows nothing and has an empty quotation with total 0 |
| Quotation.QuotationApp.LoadCatalogue | Quotation_program-V7.py:505-515 | after loading, the catalogue and the shown rows are both exactly the loaded rows in order; the quotation is untouched |
| Quotation.QuotationApp.CalculateTotal | Quotation_program-V7.py:575-593 | the total becomes the sum of the subtotals; the capitalised field holds its words, or is left empty when the converter fails; the lines are unchanged |
| Quotation.QuotationApp.AddToQuotation | Quotation_program-V7.py:535-573 | with no selection nothing changes; otherwise the lines become `Added` of the selected shown row, and the total and its words are recomputed |
| Quotation.QuotationApp.DeleteItem | Quotation_program-V7.py:612-617 | with an empty selection nothing changes; otherwise exactly the selected lines are removed in order, and the total and its words are recomputed |
| Quotation.QuotationApp.ClearQuotation | Quotation_program-V7.py:619-623 | every line is removed; the total is 0 and reads 零元整; catalogue and shown rows are untouched |
| Quotation.QuotationApp.FilterProducts | Quotation_program-V7.py:521-533 | the shown rows become exactly the catalogue rows matching the stripped, lower-cased query, in catalogue order; nothing else changes |

## Left out

- The split of a float amount into integer and fraction parts, its rounding to two places, and the float formatting of prices and subtotals are not modelled. All money is exact integer cents.
- ChineseAmount.SplitCents: a loss under one yuan maps to 零元整. This matches what the float code does for such amounts (its integer part is 0 and its fraction is not positive). The model does not reproduce float rounding artefacts.
- The profit-margin markup and its second capitalised total (lines 595-610) are not modelled. They are float arithmetic on a user-typed percentage.
- The thousands-separated formatting of the total label is not modelled; the total is kept as a number.
- Quotation.Lower: lower-cases ASCII letters only. Python's `str.lower` also folds non-ASCII letters, which is not modelled.
- Quotation.IsSpace: only the ASCII characters that Python's `str.strip` removes are stripped (tab through carriage return, the four separators 0x1C-0x1F, and space). The non-ASCII whitespace it also removes, such as the no-break space and the ideographic space, is not modelled.
- Quotation.QuotationApp.AddToQuotation: takes one selected row. An extended selection of several product rows is not modelled.
- Quotation.QuotationApp.CalculateTotal: a failing conversion is modelled as an empty capitalised field. The exception raised in the program is not modelled as an exception.
- Reading and checking the spreadsheet columns in `load_excel_data` is not modelled; `LoadCatalogue` receives the rows already read. Exporting a quotation to a spreadsheet is not modelled either.
- Parsing prices and quantities from the table's text cells is not modelled. That includes the errors such parsing can raise.
- Editing a quotation line in place (the edit dialog and its save) is not modelled. Neither are the operation-column click handler and the selected-product information panel.
- The quotation history is not modelled: saving it to JSON, loading it and deleting entries.
- Clipboard copying, window minimise and restore handlers, and all other widget layout are not modelled.
