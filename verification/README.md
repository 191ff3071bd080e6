# Product import: a Dafny model

The product import reads a CSV file of products, one row per product with
six fields (code, name, description, stock, cost, discontinued). Each row
becomes a `Product`, which checks its fields and a pair of business rules.
The row is then either written to an import report with its line number
and the reasons it was refused, or handed to a prepared database insert.

The model covers two things:

- the class `Product` (product.php);
- the row loop of the import script (productImport.php:65-97).

Both are imperative in the source, so both are imperative here.

`Products.Product` is a class with:

- constant row fields;
- three mutable fields, updated the way the PHP methods update them: `isValid`, the error list `importErrors` and the report text `formatedMessages`.

`Import.ImportRows` is a `while` loop over already parsed rows. Each pass:

- threads the list of accepted codes;
- builds a `Product`, validates it and applies the eligibility thresholds (minimum cost 5, maximum cost 1000, minimum stock 10);
- routes the row to the report or to the insert.

Each method is proved against specification functions:

- `ValidationErrors` and `EligibilityErrors` state what the checks append.
- `FormatEntries` states the report block `getMessages` produces.
- `Import.Run` states the whole run as a left fold of a row handler over the rows.

The run-level properties are lemmas about that fold:

- accepted codes are distinct and only grow;
- a validated code blocks every later row with the same code, even when its own row was then refused on cost or stock;
- no two inserted records share a code;
- every row goes to exactly one of the report and the insert;
- report entries come in line order, each with line `index + 2`.

How PHP behaviour is modelled (module `PhpValues`):

- `(int)` casts of the raw stock and cost fields: leading whitespace, an optional sign, then the leading digits.
- The decimal text PHP gives an int in string context.
- String truthiness: `""` and `"0"` are false.

The three Respect\Validation chains become local predicates in module
`Rules`. The code rule sees the code string. The stock and cost rules
see the decimal text PHP produces for the cast integer, which is what the
pattern and no-whitespace rules match against. The integer rule accepts
any int value, and on that text it accepts every int too
(`Rules.StockRuleAcceptsEveryInt`). The rules are:

- exact membership of the code;
- the integer and no-whitespace rules for stock;
- a hand-written matcher for the cost pattern `^(0|([1-9]\d*))(\.\d{1,2})?$`.

In the matcher, PCRE's `$` also matches just before a final newline.

A failed validator pushes the array that `findMessages` returns: one
element per rule named in the message map, with `""` for each rule that did
not fail. This is `ErrorEntry.Group`; a plain pushed string is
`ErrorEntry.Text`. The report walks the nested list and writes one
tab-indented line for each truthy message.

Cost is cast to an integer at construction (product.php:37), so a cost of
`12.00` is stored, checked and inserted as `12` (`PhpValues.CastKeepsIntegerPart`). A description of the
product as holding a decimal cost disagrees with the code. The model
follows the code. As a consequence, the stock rule can never fail, and the
cost rule fails exactly when the cost is negative. Both are proved.

## Model

| member | source | states |
|---|---|---|
| PhpValues.SkipWhitespaceDropsOnlyWhitespace | product.php:36-37 | the cast skips only leading whitespace: what it reads is a suffix of the field and everything before it is whitespace |
| PhpValues.CastReadsLeadingInt | product.php:36-37 | for every int and every field made of leading whitespace, that int's text, then text not starting with a digit: the cast gives that int, so a decimal keeps its integer part and trailing text is ignored |
| PhpValues.CastKeepsIntegerPart | product.php:37 | for every int and every fraction, the int's text followed by a point and the fraction casts to the int |
| PhpValues.CastOfTextWithoutNumber | product.php:36-37 | for every field whose first character after leading whitespace is neither a digit nor a sign followed by a digit, the cast gives 0 |
| PhpValues.CastOfRender | product.php:36-37 | casting the decimal text of an int gives that int back |
| PhpValues.CastTruncatesDecimal | product.php:37 | `(int)"12.34"` is 12, an instance of `CastKeepsIntegerPart` |
| PhpValues.CastNegative | product.php:36-37 | `(int)"-3"` is -3 |
| PhpValues.CastSkipsWhitespace | product.php:36-37 | `(int)" 7"` is 7 |
| PhpValues.CastOfNonNumeric | product.php:36-37 | "abc" and the empty field cast to 0, instances of `CastOfTextWithoutNumber` |
| Rules.StockRuleAcceptsEveryInt | product.php:134 | the integer and no-whitespace rules accept the text of every int, so the stock check never fails |
| Rules.CostRuleAcceptsExactlyNonNegative | product.php:150 | on the text of an int, the cost pattern plus no-whitespace passes if and only if the int is non-negative |
| Rules.CostPatternAccepts | product.php:150 | the pattern accepts "0", "12", "12.3" and "12.34" |
| Rules.CostPatternRejects | product.php:150 | the pattern rejects "00", "012", "12.345", "12." and "" |
| Rules.CostPatternAllowsFinalNewline | product.php:150 | without the D modifier the pattern accepts "12\n"; the no-whitespace rule still refuses it |
| Products.CodeErrors | product.php:115-125 | the code check appends an entry if and only if the code is among the previous entries, and that entry carries the message "`<code>` is not a unique product code" |
| Products.CostErrors | product.php:146-157 | the cost check appends at most one entry, and every entry it appends puts a line into the report |
| Products.ValidationErrors | product.php:78-85 | the field checks append nothing if and only if the code is new and the cost is non-negative; whatever they append shows in the report |
| Products.EligibilityErrors | product.php:94-109 | at most one eligibility message, present if and only if cost < minimum and stock < minimum, or cost > maximum; it shows in the report |
| Products.SpeakingErrorsGiveText | productImport.php:85-88 | a non-empty error list whose entries all speak gives a non-empty report block |
| Products.Product.constructor | product.php:31-43 | stock and cost are the `(int)` casts of the raw fields; `added` is the clock reading; a discontinued date exists exactly for a truthy flag; not valid, no errors, no report text |
| Products.Product.GetCode | product.php:49-52 | returns the code |
| Products.Product.IsValid | product.php:68-71 | returns the validity flag |
| Products.Product.ValidateProduct | product.php:78-85 | appends the code errors, then the cost errors, with no short-circuit; the stock check appends nothing; the flag becomes "error list empty" and is returned |
| Products.Product.ToBeInserted | product.php:94-109 | only appends: the eligibility message when the product was valid, nothing otherwise; an invalid product stays invalid; a valid one stays valid if and only if neither threshold rule applies; returns the flag |
| Products.Product.ValidateCode | product.php:115-125 | appends exactly the code check's entry |
| Products.Product.ValidateStock | product.php:130-141 | leaves the error list unchanged, since the cast stock always passes |
| Products.Product.ValidateCost | product.php:146-157 | appends the regex message group exactly when the cast cost is negative |
| Products.Product.FormatMessage | product.php:164-170 | appends a tab-indented line for a truthy message, nothing otherwise |
| Products.Product.GetMessages | product.php:58-62 | appends the lines of every message of the nested error list, in walk order, to the report text and returns it |
| Products.Product.ToArray | product.php:176-185 | the insert record holds the row's code, name and description, the cast stock and cost, and the `added` timestamp for both `added` and `discontinued` |
| Import.Fold | productImport.php:65-97 | the run over n rows has exactly n outcomes, one per row |
| Import.Run | productImport.php:65-97 | the import's run has one outcome per row |
| Import.FoldStep | productImport.php:69-97 | one more row extends the run by that row's handling against the codes accepted before it |
| Import.RowRejectedIff | productImport.php:76-85 | a row is refused if and only if its code is already accepted, its cost is negative, it is cheap (cost < 5) and short of stock (stock < 10), or it is dear (cost > 1000) |
| Import.StepGuards | productImport.php:73-93 | the row handling accepts only new codes, refuses known ones, inserts only validated rows under their own code, and reports a refusal at its line with a non-empty message block |
| Import.OutcomeAt | productImport.php:69-97 | the outcome of row j is its handling against the codes accepted in rows 0..j-1 |
| Import.RowOutcomeInRun | productImport.php:68-96 | row j's outcome is that row's product handled at line j + 2; a refusal carries that line number and its header |
| Import.ValidProductsGrow | productImport.php:67-79 | the accepted codes of a prefix of the rows are a prefix of the accepted codes of the whole run |
| Import.ValidProductsDistinct | productImport.php:67-78 | the accepted codes are pairwise distinct |
| Import.ValidatedCodeBlocksLater | productImport.php:76-82 | when a row is validated, every later row with the same code is refused |
| Import.DuplicateOfValidatedRowIsRejected | productImport.php:76-82 | a row that passes the field checks blocks all later rows with its code, even when it is itself refused by the eligibility rules |
| Import.InsertedCodesDistinct | productImport.php:76-92 | no two inserted records share a code, and each inserted code was accepted |
| Import.ReportEntriesInOrder | productImport.php:68-96 | report entries carry line numbers from 2 to rows + 1, strictly increasing, each with a non-empty message block |
| Import.EachRowOnce | productImport.php:85-93 | every outcome is exactly one of a report entry and an insert record |
| Import.RunReport | productImport.php:65-97 | for the import's run: inserted codes are distinct, report entries plus records equal the number of rows, and the report is in line order with non-empty explanations |
| Import.ImportRow | productImport.php:71-93 | one row's product, validated against the accepted codes and checked against thresholds 5, 1000 and 10, gives that row's specified handling |
| Import.HandleRow | productImport.php:71-96 | one loop pass takes the accepted codes, the report and the records of the run over the first i rows to those of the run over the first i + 1 |
| Import.ImportRows | productImport.php:65-97 | the report is that of the run; the inserted records are the run's accepted records when an insert was prepared, and nothing otherwise |

## Left out

- Products.CodeErrors: code membership is exact string equality. The validator's `in` compares loosely, so numeric-looking codes such as "1" and "01" would also collide there.
- Products.Product.ValidateProduct: the Respect\Validation machinery is replaced by the local predicates of `Rules`. This covers `assert`, exceptions, `findMessages` and the `{{input}}` templating. A message is built by concatenation.
- Products.Product.constructor: the `(int)` cast follows only its integer reading: whitespace, sign, then digits. Exponent notation, hexadecimal text and saturation at the platform integer limit are not modelled. A missing `discontinued` argument (`NULL`) is the empty string here, and both are falsy.
- Products.Product.constructor: `DateTime` creation and formatting are not modelled. A timestamp is an opaque string supplied by the caller, so the clock is a parameter, one reading per row.
- Products.Product.ToArray: `discontinued` is taken from `added`, as the source does. The separately kept discontinued date never reaches the record.
- Products.Product.GetMessages: the callback `'Product::formatMesssages'` handed to `array_walk_recursive` is modelled as running on the product itself: each truthy message of the nested error list is appended to `formatedMessages`. PHP's callback resolution is not modelled. The field is never reset, so a second call repeats the block. No idempotence is claimed.
- Products.Product.ValidateStock: the `notEmpty` message of the stock and cost checks is never produced. Neither chain contains that rule, and on a cast int the chains never fail, except for a negative cost.
- Products.Product.ToBeInserted: the thresholds are integers. They are documented as floats, but the only caller passes integers.
- Integers are unbounded. PHP's 64-bit int limits do not arise for the model's properties and are not represented.
- Import.ImportRows: command-line parsing, the database connection, the prepared insert statement itself, CSV parsing and the report file writes are not modelled. The input is a sequence of parsed rows. The outputs are the report entries (header line and message block, written in that order) and the insert records. Whether an insert was prepared is the flag `hasInsertQuery`.
