# Tax-department transaction ledger, modelled in Dafny

This project models the core of a small JavaFX desktop tool for a government tax department.
The tool has two core parts.

- **The transaction record** (`Transaction.java`). A record holds eight stored fields: bill
  number, item code, sale price, quantity, line total, discount, internal price and supplied
  checksum. The constructor computes two more fields once: the validity flag and the profit.
  - The validity rule compares the supplied checksum with a computed one. The computed
    checksum is the decimal count of the upper-case, lower-case and digit-or-`.` characters in
    the text `itemCode + internalPrice + discount + salePrice + quantity`.
  - The item code must also contain no character outside `[a-zA-Z0-9_]`, and the internal
    price must not be negative.
- **The record list** (`App.java`). The list is filled by the delimited importer, which reads
  CSV with `,` or TSV with a tab. It is emptied by the import button and filtered in place by
  the "Delete Invalid" and "Delete Zero-Profit" buttons. It is summarised as
  total / valid / invalid counts.

The project has four modules.

- `Numbers` (`numbers.dfy`) models Java's number texts.
  - `Integer.toString`, `String.valueOf(int)` and `Integer.parseInt` are modelled exactly, on
    ASCII text and within the 32-bit range.
  - `Double.toString` and `Double.parseDouble` are parameters of the model: the
    `DoubleText(render, parse)` value. Every lemma therefore holds for any choice of them.
    Where a lemma needs a parse to succeed, its requires says so.
- `Transactions` (`transaction.dfy`) models the record.
  - The record is never changed after construction, so it is a datatype.
  - `NewTransaction` models the constructor. It calls the imperative `CalculateChecksum`, a
    loop with three counters as in the source.
  - `CalculateChecksum` is proved equal to the specification function `Checksum`.
- `Delimited` (`delimited.dfy`) models `String.split` for a one-character literal
  delimiter. It cuts the line at every delimiter, drops trailing empty fields, and returns a
  line holding no delimiter whole.
- `Ledger` (`app.dfy`) models the list.
  - The list is the field `transactions: seq<Transaction>` of class `App`, which its methods
    reassign.
  - `ImportDelimited` takes the file as a `TextFile`, which is either `Missing` or its
    sequence of lines. It handles `Missing`, skips the header and hands the remaining lines
    to `ImportDataLines`, which is the reading loop.
  - `AddTransaction` models `addTransaction`. `DeleteInvalid` and `DeleteZeroProfit` model the
    two `removeIf` lambdas.
  - Each method is proved against a function of the old list. The lemmas then state what the
    source promises about those functions.

Three behaviours of the code that are easy to miss:

- `addTransaction` given fewer than eight parts throws an index error inside its `try`. The
  error is caught, so the call adds nothing.
- `String.split` drops trailing empty fields. So a row whose last field (the checksum) is empty
  splits into seven fields and is skipped.
- A line with no delimiter, including the empty line, splits into one field.

## Model

| member | source | states |
|---|---|---|
| Numbers.NatToString | src/main/java/com/example/Transaction.java:52 | `String.valueOf` of a count is non-empty, made of digits, and has no leading zero |
| Numbers.NatToStringRoundTrip | src/main/java/com/example/Transaction.java:52 | reading back the digits of the text of `n` gives `n` |
| Numbers.NatToStringInjective | src/main/java/com/example/Transaction.java:52 | different counts have different checksum texts |
| Numbers.IntToString | src/main/java/com/example/Transaction.java:42 | the text of `+ quantity`: a minus sign before the digits of a negative value; `ParseIntRoundTrip` proves `parseInt` reads it back |
| Numbers.DigitsOnly | src/main/java/com/example/App.java:180 | the left-to-right digit scan of `parseInt` accepts only digit text |
| Numbers.DigitsOnlyIffAllDigits | src/main/java/com/example/App.java:180 | the scan accepts exactly the texts whose every character is an ASCII digit |
| Numbers.ParseInt | src/main/java/com/example/App.java:180 | `Integer.parseInt` succeeds only on non-empty text; the lemmas below give the rest |
| Numbers.ParseIntRoundTrip | src/main/java/com/example/App.java:180 | `Integer.parseInt(Integer.toString(x)) == x` for every 32-bit `x` |
| Numbers.ParseIntRejectsNonDigit | src/main/java/com/example/App.java:180 | text with a character that is neither a digit nor a leading sign throws NumberFormatException |
| Numbers.ParseIntRejectsLoneSign | src/main/java/com/example/App.java:180 | a sign without digits throws NumberFormatException |
| Numbers.ParseIntRejectsOverflow | src/main/java/com/example/App.java:180 | digits whose value exceeds the largest `int` throw NumberFormatException |
| Transactions.CountOf | src/main/java/com/example/Transaction.java:44-51 | the number of characters of a class is at most the length of the line |
| Transactions.ChecksumLine | src/main/java/com/example/Transaction.java:42 | the concatenation `itemCode + internalPrice + discount + salePrice + quantity`, no separators; `ChecksumIgnoresOtherFields` states that it uses only those five fields |
| Transactions.Checksum | src/main/java/com/example/Transaction.java:41-53 | the computed checksum is non-empty and made of digits only |
| Transactions.CalculateChecksum | src/main/java/com/example/Transaction.java:41-53 | the three-counter loop returns the decimal text of the number of upper-case, lower-case and digit-or-`.` characters of `itemCode + internalPrice + discount + salePrice + quantity` |
| Transactions.TallyPartition | src/main/java/com/example/Transaction.java:44-51 | the else-if chain puts each character in exactly one class, so counted plus uncounted characters make up the line |
| Transactions.TallyBound | src/main/java/com/example/Transaction.java:42-52 | the checksum value is at most the length of the concatenated line |
| Transactions.CountOfAppend | src/main/java/com/example/Transaction.java:44-51 | counting a class over a concatenation adds the counts of the parts |
| Transactions.TallyAppend | src/main/java/com/example/Transaction.java:44-51 | the checksum count of a concatenation is the sum of the counts of its parts |
| Transactions.OtherCharAddsNothing | src/main/java/com/example/Transaction.java:44-51 | a character outside the three classes (`_`, `-`, a space) changes the count nowhere in the line |
| Transactions.HasSpecialChars | src/main/java/com/example/Transaction.java:55-57 | `hasSpecialChars` as the left-to-right scan of `Matcher.find`; `HasSpecialCharsIffSome` gives the iff with "some character outside `[a-zA-Z0-9_]`" |
| Transactions.HasSpecialCharsIffSome | src/main/java/com/example/Transaction.java:55-57 | `hasSpecialChars` is true if and only if some character of the item code lies outside `a-z`, `A-Z`, `0-9`, `_` |
| Transactions.HasSpecialCharsAppend | src/main/java/com/example/Transaction.java:55-57 | a concatenated item code has a special character if and only if one of its parts has one |
| Transactions.HasSpecialCharsExamples | src/main/java/com/example/Transaction.java:55-57 | the empty code and `ITEM_1` have none; `ITEM-1` has one |
| Transactions.ValidateChecksum | src/main/java/com/example/Transaction.java:36-39 | `validateChecksum`, the conjunction of checksum match, no special characters and internal price >= 0; `ValidateChecksumCharacterized` gives the iff and `FailureConditions` the three failure cases |
| Transactions.CalculateProfit | src/main/java/com/example/Transaction.java:59-61 | `calculateProfit` in exact arithmetic; `ProfitPerUnit` and `ProfitZeroQuantity` state its properties |
| Transactions.Make | src/main/java/com/example/Transaction.java:22-34 | the record the constructor builds; `MakeStores` states that it keeps the arguments and derives validity and profit, and `NewTransaction` is proved to return it |
| Transactions.NewTransaction | src/main/java/com/example/Transaction.java:22-34 | the constructor builds the record of its eight arguments, with validity and profit computed by the validation rule and the profit formula |
| Transactions.MakeStores | src/main/java/com/example/Transaction.java:22-34 | every getter returns the constructor's argument, and the derived fields agree with the rule and the formula |
| Transactions.ChecksumIgnoresOtherFields | src/main/java/com/example/Transaction.java:42 | the computed checksum depends only on item code, internal price, discount, sale price and quantity |
| Transactions.NonNumericChecksumInvalid | src/main/java/com/example/Transaction.java:36-39 | a supplied checksum that is empty or holds a non-digit never validates |
| Transactions.Check1NeverValid | src/test/java/com/example/AppTest.java:27 | the sample checksum `CHECK1` never validates, whatever the other fields are |
| Transactions.FailureConditions | src/main/java/com/example/Transaction.java:36-39 | a negative internal price, a special character or a checksum mismatch each make the record invalid |
| Transactions.ValidateChecksumCharacterized | src/main/java/com/example/Transaction.java:36-53 | a record is valid if and only if its checksum is a digit run without a leading zero (except `0` itself) whose value is the character count, its item code is all word characters, and its internal price is not negative |
| Transactions.CanonicalDigits | src/main/java/com/example/Transaction.java:52 | a digit run without a leading zero is `String.valueOf` of its own value |
| Transactions.LeadingDigitPositive | src/main/java/com/example/Transaction.java:52 | a digit run that does not start with `0` has a positive value |
| Transactions.ProfitZeroQuantity | src/main/java/com/example/Transaction.java:59-61 | with quantity 0 the profit is the discount |
| Transactions.ProfitPerUnit | src/main/java/com/example/Transaction.java:59-61 | profit = (internal price - sale price) * quantity + discount |
| Transactions.ProfitExample | src/main/java/com/example/Transaction.java:59-61 | the first sample row (80, 2, 100, 10) has profit -30 |
| Delimited.Pieces | src/main/java/com/example/App.java:128 | a line has at least one field, and no field holds the delimiter |
| Delimited.DropTrailingEmpty | src/main/java/com/example/App.java:128 | the result is a prefix of the fields that does not end in an empty field; only empty fields are dropped |
| Delimited.Split | src/main/java/com/example/App.java:128 | no field of `line.split(d)` holds the delimiter |
| Delimited.JoinPieces | src/main/java/com/example/App.java:128 | writing the fields of a line back with the delimiter gives the line |
| Delimited.PiecesCons | src/main/java/com/example/App.java:128 | delimiter-free text followed by the delimiter is the first field |
| Delimited.PiecesSingle | src/main/java/com/example/App.java:128 | delimiter-free text is a single field |
| Delimited.PiecesJoin | src/main/java/com/example/App.java:128 | cutting a joined row gives back its delimiter-free fields |
| Delimited.JoinHasDelimiter | src/main/java/com/example/App.java:128 | a row of two or more fields holds the delimiter |
| Delimited.SplitJoin | src/main/java/com/example/App.java:128 | a row of delimiter-free fields whose last field is non-empty splits back into exactly those fields |
| Delimited.SinglePieceIffNoDelimiter | src/main/java/com/example/App.java:128 | a line is a single field if and only if it has no delimiter |
| Delimited.SplitCases | src/main/java/com/example/App.java:128 | `split` returns a delimiter-free line whole, and otherwise its fields without the trailing empty ones |
| Delimited.SplitBound | src/main/java/com/example/App.java:128 | a line with n delimiters has n + 1 fields, and `split` keeps at most that many |
| Delimited.SplitExamples | src/main/java/com/example/App.java:128 | `"a,b,,"` gives 2 fields, `",,"` none, and `""` one empty field |
| Ledger.LineRecords | src/main/java/com/example/App.java:128-130 | one data line contributes at most one record |
| Ledger.ParseRow | src/main/java/com/example/App.java:176-186 | the positional mapping of `addTransaction`, None on fewer than 8 parts or a failed parse (the catch-all); `EightFieldLine` states the iff and the mapping |
| Ledger.Rows | src/main/java/com/example/App.java:127-131 | the data lines contribute at most one record each |
| Ledger.Imported | src/main/java/com/example/App.java:126-131 | the header line is dropped and every later line adds its records; `HeaderIgnored`, `ImportedBound` and `ImportedInLineOrder` state its properties |
| Ledger.RemoveIf | src/main/java/com/example/App.java:55 | `removeIf` keeps only elements that fail the predicate, all from the list, and never grows it |
| Ledger.IsInvalid | src/main/java/com/example/App.java:55 | the lambda `t -> !t.getIsValid()`; `Ledger.App.DeleteInvalid` states that no survivor is invalid |
| Ledger.IsZeroProfit | src/main/java/com/example/App.java:61 | the lambda `t -> t.getProfit() == 0`, exact equality; `Ledger.App.DeleteZeroProfit` states that no survivor has profit 0 |
| Ledger.CountValid | src/main/java/com/example/App.java:190 | the valid count is at most the list size |
| Ledger.Summarize | src/main/java/com/example/App.java:189-193 | total is the list size, and valid + invalid = total |
| Ledger.App.constructor | src/main/java/com/example/App.java:25 | the list starts empty |
| Ledger.App.Clear | src/main/java/com/example/App.java:79 | `clear` leaves the list empty |
| Ledger.App.AddTransaction | src/main/java/com/example/App.java:175-187 | appends the record of the parts mapped by position, or leaves the list unchanged when there are fewer than 8 parts or a numeric parse fails |
| Ledger.App.ImportLine | src/main/java/com/example/App.java:128-130 | one loop step appends that line's records and nothing else |
| Ledger.App.ImportDelimited | src/main/java/com/example/App.java:124-133 | a missing file changes nothing and reports failure; otherwise the old list stays as a prefix, followed by the records of the lines after the header |
| Ledger.App.ImportDataLines | src/main/java/com/example/App.java:127-131 | the reading loop appends the records of every line, in line order |
| Ledger.App.DeleteInvalid | src/main/java/com/example/App.java:53-57 | the list becomes the valid records in order, and every survivor is valid |
| Ledger.App.DeleteZeroProfit | src/main/java/com/example/App.java:59-63 | the list becomes the records with non-zero profit in order, and no survivor has profit exactly 0 |
| Ledger.App.CurrentSummary | src/main/java/com/example/App.java:189-193 | the summary of the current list: total is its size, and valid + invalid = total |
| Ledger.RowsAppend | src/main/java/com/example/App.java:127-131 | the records of two consecutive runs of lines are those of each run, one after the other |
| Ledger.RowsSnoc | src/main/java/com/example/App.java:127-131 | one more line appends its own records at the end |
| Ledger.ImportedInLineOrder | src/main/java/com/example/App.java:126-131 | the records of line k come after those of lines 1 to k-1 and before those of later lines |
| Ledger.ImportedBound | src/main/java/com/example/App.java:126-131 | an empty file or a header alone gives nothing; otherwise at most lines - 1 records |
| Ledger.HeaderIgnored | src/main/java/com/example/App.java:126 | the content of the first line never affects the result |
| Ledger.WrongFieldCountSkipped | src/main/java/com/example/App.java:129 | a line that does not split into exactly 8 fields contributes nothing |
| Ledger.EightFieldLine | src/main/java/com/example/App.java:175-187 | an 8-field line contributes a record if and only if fields 2-6 parse, and the record holds fields 0-7 in order |
| Ledger.LineRecordsWellFormed | src/main/java/com/example/App.java:177 | a line's record is built by the constructor |
| Ledger.RowsWellFormed | src/main/java/com/example/App.java:127-131 | every imported record carries the validity and profit its own fields determine |
| Ledger.JoinedLineRecord | src/main/java/com/example/App.java:128-130 | a line written from 8 delimiter-free fields with a non-empty last field, whose numeric fields parse, gives exactly the record of those fields |
| Ledger.ImportedTwoLines | src/main/java/com/example/App.java:126-131 | a header and two lines give the first line's records, then the second's |
| Ledger.SampleCsvFirstLine | src/test/java/com/example/AppTest.java:27 | the line `B001,ITEM1,100.0,2,200.0,10.0,80.0,CHECK1` gives its record |
| Ledger.SampleCsvSecondLine | src/test/java/com/example/AppTest.java:28 | the line `B002,ITEM2,50.0,3,150.0,5.0,40.0,CHECK2` gives its record |
| Ledger.SampleCsv | src/test/java/com/example/AppTest.java:47-63 | the sample CSV gives 2 records in file order with the fields of the first line; both are invalid |
| Ledger.SampleTsvFirstLine | src/test/java/com/example/AppTest.java:35 | the tab-separated B003 line gives its record |
| Ledger.SampleTsvSecondLine | src/test/java/com/example/AppTest.java:36 | the tab-separated B004 line gives its record |
| Ledger.SampleTsv | src/test/java/com/example/AppTest.java:66-81 | the sample TSV gives 2 records, the second with the fields of the B004 line |
| Ledger.ShortRowFile | src/test/java/com/example/AppTest.java:83-89 | the file whose one data row has 3 fields gives no record |
| Ledger.KeptIndices | src/main/java/com/example/App.java:55 | the increasing positions of exactly the elements that fail the predicate |
| Ledger.RemoveIfSelects | src/main/java/com/example/App.java:55 | the k-th survivor of `removeIf` is the element at the k-th kept position: exactly the kept elements, in their original order |
| Ledger.RemoveIfNothingToRemove | src/main/java/com/example/App.java:55 | `removeIf` changes nothing when no element satisfies the predicate |
| Ledger.RemoveIfIdempotent | src/main/java/com/example/App.java:55 | pressing a delete button twice has the effect of pressing it once |
| Ledger.CountValidIsSurvivors | src/main/java/com/example/App.java:190 | the valid count is the number of survivors of "Delete Invalid", and equals the list size if and only if all records are valid |
| Ledger.SummaryAfterDeleteInvalid | src/main/java/com/example/App.java:55-56 | right after "Delete Invalid" the summary shows 0 invalid, and its total is the old valid count |

## Left out

- The JavaFX user interface is not modelled: `start`, `createCol`, the labels, buttons and
  table, and `main`/`launch`. It is presentation only. So the import handler's empty-path and
  "File does not exist" messages and its format dispatch are not modelled. Of that handler,
  only its `clear` (`Ledger.App.Clear`) is.
- The summary label's text is left out. Only the three counts are modelled.
- `importJSON` and `importXML` are thin wrappers over JSON and DOM libraries that are not
  shown.
- File reading is replaced by a `TextFile` value. A missing file is `Missing`. An I/O error in
  the middle of reading, after some lines were added, is not modelled.
- Floating point is exact: sale price, discount, internal price, line total and profit are
  `real`. IEEE rounding in `calculateProfit`, NaN and -0.0 are not modelled. The zero-profit
  test is exact equality with 0.
- `Double.toString` and `Double.parseDouble` are supplied as `DoubleText.render` and
  `DoubleText.parse`. Their exact text forms (`80.0`, `1.0E7`, whitespace trimming) are not
  modelled.
- `Character.isUpperCase`, `isLowerCase` and `isDigit` are ASCII only. So is the item-code
  pattern. Other Unicode letters and digits are not modelled.
- Numbers.ParseInt: accepts ASCII digits only. Java's `Integer.parseInt` reads digits through
  `Character.digit`, which also takes other Unicode decimal digits (a full-width `３` is 3). On
  such a quantity field Java adds the row and the model skips it.
- `Delimited.Split` handles one literal character. A delimiter that is a regular-expression
  metacharacter, or longer than one character, is not modelled. The importer is only called
  with `,` and a tab.
- The commented-out fall-through switch in the import handler is dead code.
