/** The error values of the service: the sentinel errors of utils/errors.go,
    the errors that come from libraries the model does not look into, and
    the two ways drink.go builds errors (`errors.New`, `errors.Wrap`). */
module Errors {
  import opened StrConv

  datatype Error =
    // utils/errors.go
    | MoneyFormat           // "Unrecognized format for money"
    | MoneyDollarParse      // "Failed parsing dollar part"
    | MoneyCentParse        // "Failed parsing cent part"
    | MoneyAmount           // "Money given is out of accepted range"
    | StartEndDate          // "The end date comes before the start date"
    | DeleteMissingID       // "ID is required for delete operation"
    // errors raised by library code
    | NumError(num: string, err: NumErr)   // *strconv.NumError from ParseInt
    | TimeParseError                       // time.Parse rejected the text
    | UuidError                            // uuid.NewV4 failed
    | DbError                              // the database reported a failure
    | NullScanError                        // rows.Scan of a NULL column into a string
    // github.com/pkg/errors
    | New(text: string)
    | Wrap(cause: Error, context: string)
}
