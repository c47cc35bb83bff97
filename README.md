# CoffeeShop drink catalogue: a Dafny model

This project models the logic at the heart of the CoffeeShop drink catalogue service, a Go web service that stores drinks and searches them. The logic covered is:

- **Price validation** (`utils/validation.go`). `ValidateMoney` splits a price on `.` and reads both parts with Go's `strconv.ParseInt(s, 0, 64)`. It range-checks the two values and answers with one of four errors, in a fixed order.
- **The drink model** (`models/drink.go`):
  - parsing the search parameters into `DrinkSearchOptions`;
  - `Drink.Validate`;
  - the clauses the search query is built from (`dbQuery`);
  - mapping result rows to drinks (`Query`);
  - `Create` and `Delete` inside a database transaction.

Modules:

- `Wrappers`: `Option` and `Result`.
- `Strings`: `strings.Split` and `strings.Join` with a one-character separator.
- `StrConv`: base-0 `strconv.ParseInt`. It covers:
  - the sign;
  - the `0x`, `0o` and `0b` prefixes;
  - a bare leading `0` meaning octal;
  - `_` separators;
  - the uint64 loop cut-off and the int64 bounds.

  It also holds decimal `%d` formatting, which is ParseInt's partner in a round trip.
- `Errors`: the sentinel errors of `utils/errors.go` and the errors of the libraries called. `errors.New` and `errors.Wrap` become constructors, and every context string is kept verbatim.
- `Validation`: `ValidateMoney`.
- `Store`: the two tables `drinks` and `drinks_ingredients`, as a `Database` class and a `Tx` class.
  - A transaction stages statements.
  - `Commit` applies all of them, in order, or none.
  - `Rollback` discards them.
- `Models`: `models/drink.go`.
  - `Drink` is a class, because `Create` assigns `d.ID` in place.
  - `NewDrinkSearchOptions`, `Validate` and `dbQuery` are functions.
  - `Create`, `Delete` and `Query` are methods.

What the database does is given to the model as inputs:

- whether beginning, executing a statement or committing fails (`faults`);
- the rows a query returns (`answer`);
- the UUID generated for a new drink (`uuid`).

Timestamps are integers. Time parsing with the service's time format is a function parameter.

Two behaviours of the code are easy to miss, and the model states both:

- The cent part is read with base 0 (utils/validation.go:26), so a leading `0` makes it octal. `08` and `09` are invalid octal, so `"1.08"` and `"1.09"` fail with the cent-parse error, while `"1.07"` passes. See `Validation.OctalCentsRejected` and `Validation.ValidateDecimalPrice`.
- A drink with no ingredient rows gets a NULL `string_agg` column, and `rows.Scan` cannot read NULL into a Go `string` (models/drink.go:205-214). `Query` therefore stops at that row and returns the "Failed reading a drink row" error, together with the drinks read before it. `Models.Drink.Query` models exactly that.

## Model

| member | source | states |
|---|---|---|
| `Strings.Count` | utils/validation.go:12-13 | the number of separators is at most the length, and zero exactly when the separator is absent |
| `Strings.Join` | models/drink.go:79 | `strings.Join` starts with the first part |
| `Strings.JoinCount` | models/drink.go:79 | pieces free of the separator are glued by exactly one separator each |
| `Strings.Split` | utils/validation.go:12 | `strings.Split` never returns an empty list |
| `Strings.JoinSplit` | models/drink.go:79 | joining the pieces of a split with the separator gives the original string back; empty pieces are kept |
| `Strings.SplitPieces` | models/drink.go:79 | a split has one piece more than the string has separators, and no piece contains the separator |
| `Strings.SplitNoSeparator` | models/drink.go:216 | a string without a comma splits into itself alone, so an empty aggregate gives `[""]` |
| `Strings.SplitJoin` | models/drink.go:216 | splitting the join of a non-empty list of comma-free pieces gives the list back |
| `Strings.SplitOnce` | utils/validation.go:12-13 | a string with exactly one `.` splits into two dot-free pieces around it |
| `StrConv.BasePrefix` | utils/validation.go:17 | base 0 picks decimal iff the text does not start with `0` (the digits are then the whole text); hex iff `0x`/`0X` with a digit position after it; binary likewise for `0b`; octal otherwise; the digits are the text after the two-character prefix for hex, binary and `0o`, and after the `0` for a bare leading zero, and keep any underscore |
| `StrConv.Accumulate` | utils/validation.go:17 | the digit loop accepts only digits of the base and underscores, and never a value above uint64 |
| `StrConv.SeparatorsOK` | utils/validation.go:17 | the underscore scan accepts every text without underscores and rejects every text ending in one |
| `StrConv.SeparatorsRule` | utils/validation.go:17 | from any state but right after an underscore, the scan accepts a text exactly when every underscore stands between two digits, a base prefix counting as the digit before |
| `StrConv.UnderscoreOK` | utils/validation.go:17 | `underscoreOK` accepts every text without underscores and rejects every text ending in one |
| `StrConv.UnderscoreRule` | utils/validation.go:17 | `underscoreOK` holds exactly when, after an optional sign and an optional `0b`/`0o`/`0x` prefix, every underscore has a digit (or the prefix) before it and a digit after it; hex letters count as digits after `0x` |
| `StrConv.ParseUint` | utils/validation.go:17 | an accepted value fits in uint64, and a text with an underscore is accepted only if the underscore check passes |
| `StrConv.ParseInt` | utils/validation.go:17 | a value that base-0 ParseInt accepts always lies in the int64 range |
| `StrConv.ParsePrefixed` | models/drink.go:53 | a signed `0x`, `0o`, `0b`, leading-`0` or decimal numeral parses as its digits' value in that base under the sign, or a range error outside int64 |
| `StrConv.ParseIntSign` | models/drink.go:66 | a `+` changes nothing; a `-` negates; errors of the unsigned parse pass through; the int64 bounds are checked after the sign |
| `StrConv.UnderscoreBetweenDigits` | utils/validation.go:17 | an underscore between two runs of digits does not change the result |
| `StrConv.LeadingUnderscore` | utils/validation.go:17 | a leading underscore is a syntax error, unless the digits overflow uint64 first |
| `StrConv.TrailingUnderscore` | utils/validation.go:17 | a trailing underscore on a decimal numeral is a syntax error, unless the digits overflow first |
| `StrConv.DoubledUnderscore` | utils/validation.go:17 | two underscores in a row in a decimal numeral are a syntax error, unless the digits overflow first |
| `StrConv.HexExample` | models/drink.go:53 | `"0x1F"` parses as 31 |
| `StrConv.SignedBinaryExample` | models/drink.go:53 | `"-0b101"` parses as -5 |
| `StrConv.SignedOctalExample` | models/drink.go:53 | `"+0o17"` parses as 15 |
| `StrConv.GroupedExample` | models/drink.go:53 | `"1_000"` parses as 1000 |
| `StrConv.MisplacedExamples` | models/drink.go:53 | `"_1"`, `"1_"` and `"1__0"` are syntax errors |
| `StrConv.ParseIntSteps` | utils/validation.go:17 | an unsigned text reads as the digit loop's value over what follows the base prefix, unless the loop fails or an underscore breaks the rule |
| `StrConv.PrefixSeparatorExample` | models/drink.go:53 | `"0x_1F"` parses as 31 |
| `StrConv.BinarySeparatorExample` | models/drink.go:53 | `"0b1_01"` parses as 5 |
| `StrConv.HexDoubledSeparatorExample` | models/drink.go:53 | `"0x1__F"` is a syntax error |
| `StrConv.FormatInt` | models/drink.go:249-254 | `%d` writes a `-` exactly for negative values, followed by decimal digits only |
| `StrConv.DecimalString` | models/drink.go:249 | `%d` writes only digits, at least one, with a leading `0` only for zero |
| `StrConv.AccumulateDigits` | utils/validation.go:26 | the digit loop yields the digits' value, or a range error exactly when that value exceeds uint64 |
| `StrConv.ParseUintDecimal` | models/drink.go:53 | ParseUint reads a decimal numeral back as its value up to 2^64-1, and reports a range error beyond |
| `StrConv.ParseFormatInt` | models/drink.go:53 | ParseInt of `%d` of v is v for every int64, and a range error otherwise |
| `StrConv.ParseTwoDigits` | utils/validation.go:26 | a two-digit text with a leading `0` is octal (`08` and `09` are syntax errors); any other two digits are decimal |
| `StrConv.ParseOneDigit` | utils/validation.go:26 | a single digit parses as itself; a lone `0` takes the octal path and still gives 0 |
| `Validation.ValidateMoney` | utils/validation.go:11-36 | the verdict is nil or one of the four money errors |
| `Validation.ValidateMoneyFormat` | utils/validation.go:12-15 | the format error is returned iff the text does not hold exactly one `.` |
| `Validation.ValidateMoneyCases` | utils/validation.go:12-15 | every price either fails with the format error or is `dollars.cents` with two dot-free parts |
| `Validation.ValidateMoneyParts` | utils/validation.go:8-36 | each verdict, as an iff: dollar-parse error iff the dollars do not parse; amount error iff they parse outside [0, 1000]; cent-parse error iff the dollars are fine and the cents do not parse into [0, 99]; nil iff both are in range |
| `Validation.ValidateDecimalPrice` | utils/validation.go:17-33 | the exact verdict on a price written as `%d` dollars and two cent digits, including rejection of cents `08`/`09` |
| `Validation.ValidateShortCents` | utils/validation.go:26-35 | a single cent digit never causes an error |
| `Validation.OctalCentsRejected` | utils/validation.go:26-29 | `"1.08"` and `"1.09"` fail with the cent-parse error |
| `Validation.OctalAndShortCentsAccepted` | utils/validation.go:26-35 | `"1.07"` and `"1.5"` are valid |
| `Validation.EmptyDollarsRejected` | utils/validation.go:17-20 | an empty dollar part (`".50"`) is a dollar-parse error |
| `Validation.DollarCheckedFirst` | utils/validation.go:17-33 | the dollar checks come first: `"2000.xyz"` fails with the amount error, not a cent error |
| `Store.WithoutDrink` | models/drink.go:175-178 | deleting from `drinks` keeps exactly the rows with another id |
| `Store.WithoutIngredientsOf` | models/drink.go:183-186 | deleting from `drinks_ingredients` keeps exactly the rows of other drinks |
| `Store.WithoutDrinkAbsent` | models/drink.go:175-178 | deleting an id that no drink row has leaves the table as it was |
| `Store.WithoutIngredientsAbsent` | models/drink.go:183-186 | deleting the ingredients of an id that no ingredient row has leaves the table as it was |
| `Store.Apply` | models/drink.go:126-186 | each statement changes only the table it names; an insert keeps the old rows in front of the new ones; a delete keeps exactly the rows of other ids; no row appears that was neither there nor inserted |
| `Store.ApplyAll` | models/drink.go:159 | after a commit, every row was there before or was inserted by one of the committed statements |
| `Store.Database.Begin` | models/drink.go:102-105 | a transaction either fails to begin, or is new and empty and is counted as begun |
| `Store.Tx.Exec` | models/drink.go:126-141 | a statement that succeeds is staged after the earlier ones; a failing one stages nothing |
| `Store.Tx.Commit` | models/drink.go:159 | commit applies every staged statement in order, or on failure leaves the tables unchanged |
| `Store.Tx.Rollback` | models/drink.go:107 | the transaction is finished |
| `Models.Get` | models/drink.go:40-78 | a parameter reads as its first value, or as `""` when it is missing or has no value |
| `Models.ParseCount` | models/drink.go:52-76 | an offset or limit text is accepted iff ParseInt reads it as a value ≥ 0, and the result is that value; a text ParseInt rejects gives its error wrapped as a number error with the context; a negative value gives the plain negative-count error |
| `Models.NewDrinkSearchOptions` | models/drink.go:37-84 | a missing or empty parameter leaves its field unset; the name is taken verbatim; a set date, offset or limit holds the parsed parameter (offset and limit ≥ 0); ingredients are the comma split; there is no error iff date, offset and limit are all accepted; the first failing parameter decides the error, and later fields stay unset, while a date or offset accepted before the failure is kept as without error |
| `Models.ParsedOptionsWellFormed` | models/drink.go:37-84 | the options returned (even alongside an error) have a non-empty name, int64 counts ≥ 0, and at least one comma-free ingredient |
| `Models.SearchOptionsRoundTrip` | models/drink.go:37-84 | writing well-formed options as query parameters and parsing them gives the same options back, with no error |
| `Models.QuoteAll` | models/drink.go:238-241 | one item per ingredient, in input order, each the ingredient between two single quotes (two characters longer), unquoting to its ingredient |
| `Models.DbQuery` | models/drink.go:224-279 | the name clause is present iff a name is set, and the date clause iff a date is set; the ingredient join iff the list is set and non-empty; GROUP BY and ORDER BY always; OFFSET and LIMIT iff set; all in that text order, each at most once |
| `Models.DbQueryReadsBack` | models/drink.go:224-279 | the clauses carry every option: reading them back gives the options, with the ingredients in order (an empty list reads as none) |
| `Models.CreateStatements` | models/drink.go:126-157 | create issues inserts only, all for the new drink's id: the drink row first, then one insert with a row per ingredient, in order, and only when the list is non-empty |
| `Models.DeleteStatements` | models/drink.go:175-191 | delete issues two deletes for the drink's id: from `drinks` first, then from `drinks_ingredients` |
| `Models.IngredientRows` | models/drink.go:143-147 | one `(ID, ingredient)` row per ingredient, in order |
| `Models.Drink.Validate` | models/drink.go:87-98 | a failing price gives the wrapped money error, whatever the dates; otherwise `ErrStartEndDate` iff start and end are both set and end is before start; nil iff the price is valid and the window is ordered |
| `Models.Drink.Create` | models/drink.go:101-160 | the error for each failing step, in step order; ID is set from the UUID before any insert and stays set; the ingredient insert is issued only for a non-empty list; a failing commit alone gives the unwrapped database error; the tables gain the create statements iff no step fails, and are otherwise unchanged |
| `Models.Drink.Delete` | models/drink.go:163-192 | an empty ID gives the missing-ID error without beginning a transaction; a non-empty ID always begins a transaction; otherwise there is an error for each failing step, and a failing commit alone gives the unwrapped database error; both deletes are applied iff no step fails, and otherwise nothing changes |
| `Models.Drink.ScanRows` | models/drink.go:203-219 | one new, distinct drink per row, in row order, holding the row's columns and the comma split of its aggregate (never empty); at the first NULL aggregate the scan error is returned with the drinks read before it, and only then |
| `Models.Drink.Query` | models/drink.go:195-222 | a failed query gives the wrapped error and no drinks; otherwise one new, distinct drink per row, in row order, with ingredients that are the comma split of the aggregate (never empty); the method stops with the scan error at the first NULL aggregate |
| `Models.CreateEffect` | models/drink.go:126-157 | a committed create appends the drink row and one ingredient row per ingredient |
| `Models.DeleteEffect` | models/drink.go:175-191 | a committed delete removes exactly that drink's rows from both tables |
| `Models.CreatePreservesNoOrphans` | models/drink.go:101-160 | create keeps every ingredient row attached to a drink row |
| `Models.DeletePreservesNoOrphans` | models/drink.go:163-192 | delete keeps every ingredient row attached to a drink row |
| `Models.DeleteAbsentIsNoop` | models/drink.go:175-191 | deleting an ID that is not stored succeeds and changes nothing |
| `Models.CreateThenDeleteRestores` | models/drink.go:101-192 | creating under a fresh ID and then deleting that ID restores both tables exactly |
| `Models.CreatedIngredients` | models/drink.go:143-157 | after a create under a fresh ID, the ingredients stored for it are exactly the drink's list, in order |

## Left out

- HTTP handling, JSON encoding and server startup (`main.go`, `handlers/drinks.go`) are transport code. This includes the handler's `offset_current = offset_previous + len(hits)` sum.
- The database connection (`db/db.go`) and SQL evaluation are not modelled. The database is an abstract two-table store. Whether it fails a step is an input, and so are the rows a search returns. The name and date conditions sit in the LEFT JOIN's ON clause, so no claim is made about which drinks a search returns.
- The text of the SQL is not modelled. The query is the sequence of clauses the code places into its template, so whitespace and the fixed SELECT/FROM part are left out. Values interpolated with `'%s'` are not escaped in the source, and the model does not capture what such a value does to the SQL text.
- `string_agg(DISTINCT ...)` removes duplicates and orders the aggregate. Both are the database's doing, and the aggregate is an input.
- Date parsing with the service's time format is a function parameter; the format's definition is not part of this model. RFC 3339 formatting of times (models/drink.go:116-124, 232) is dropped: the date clause and the stored drink rows carry the integer timestamp itself. An unset start or end is inserted as `''` in the source; the model stores None.
- UUID generation (`uuid.NewV4`) is an input. Uniqueness is not modelled.
- `rows.Scan` conversions other than the NULL ingredient aggregate are not modelled, and neither is the unchecked `rows.Err`.
- The rollback that `defer` runs after a successful commit reports an error that the source ignores. The model's `Rollback` simply does nothing there.
- Strings are sequences of characters, while Go works on bytes. Both reject non-ASCII characters in numbers alike.
- Concurrent requests and connection pooling are not modelled.
- The `*sql.Rows` iteration protocol and closing the rows are not modelled. The rows arrive as a sequence.
