/** utils/validation.go: the sanity check of a price string. */
module Validation {
  import opened Wrappers
  import opened Strings
  import opened StrConv
  import opened Errors

  const MaxDollarAmount: int := 1000

  /** The parse succeeded with a value in [lo, hi]. */
  predicate InRange(p: Result<int, NumErr>, lo: int, hi: int)
  {
    p.Ok? && lo <= p.value <= hi
  }

  /** `ValidateMoney`: None is Go's nil. */
  function ValidateMoney(val: string): (r: Option<Error>)
    ensures r.None? || r.value in {MoneyFormat, MoneyDollarParse, MoneyAmount, MoneyCentParse}
  {
    var tokens := Split(val, '.');
    if |tokens| != 2 then Some(MoneyFormat)
    else match ParseInt(tokens[0])
      case Err(_) => Some(MoneyDollarParse)
      case Ok(dollar) =>
        if dollar < 0 || dollar > MaxDollarAmount then Some(MoneyAmount)
        else match ParseInt(tokens[1])
          case Err(_) => Some(MoneyCentParse)
          case Ok(cent) => if cent < 0 || cent > 99 then Some(MoneyCentParse) else None
  }

  /** The format error is reported exactly when the string does not hold
      exactly one '.'. */
  lemma ValidateMoneyFormat(val: string)
    ensures ValidateMoney(val) == Some(MoneyFormat) <==> Count(val, '.') != 1
  {
    SplitPieces(val, '.');
  }

  /** On a string with one '.', the verdict is decided by the two parts:
      the dollar part is checked first (parse, then range [0, 1000]), the
      cent part only after it; cents have a single error for both failing
      to parse and lying outside [0, 99]. */
  lemma ValidateMoneyParts(dollars: string, cents: string)
    requires '.' !in dollars && '.' !in cents
    ensures ValidateMoney(dollars + "." + cents) == Some(MoneyDollarParse) <==> ParseInt(dollars).Err?
    ensures ValidateMoney(dollars + "." + cents) == Some(MoneyAmount) <==>
      ParseInt(dollars).Ok? && !InRange(ParseInt(dollars), 0, MaxDollarAmount)
    ensures ValidateMoney(dollars + "." + cents) == Some(MoneyCentParse) <==>
      InRange(ParseInt(dollars), 0, MaxDollarAmount) && !InRange(ParseInt(cents), 0, 99)
    ensures ValidateMoney(dollars + "." + cents) == None <==>
      InRange(ParseInt(dollars), 0, MaxDollarAmount) && InRange(ParseInt(cents), 0, 99)
  {
    SplitAtFirst(dollars, '.', cents);
    SplitNoSeparator(cents, '.');
    assert Split(dollars + "." + cents, '.') == [dollars, cents];
  }

  /** Every string is covered by the two lemmas above: either it does not
      hold exactly one '.', or it is `dollars + "." + cents`. */
  lemma ValidateMoneyCases(val: string)
    ensures ValidateMoney(val) == Some(MoneyFormat) ||
      exists i :: 0 <= i < |val| && val[i] == '.' && val == val[..i] + "." + val[i + 1..] &&
        '.' !in val[..i] && '.' !in val[i + 1..]
  {
    ValidateMoneyFormat(val);
    if Count(val, '.') == 1 {
      SplitOnce(val, '.');
      var i := |Split(val, '.')[0]|;
      assert val[..i] == Split(val, '.')[0];
      assert val[i + 1..] == Split(val, '.')[1];
    }
  }

  /** The verdict on every price written as `%d` dollars, a '.', and two
      decimal cent digits. Because ParseInt runs in base 0, cents "08" and
      "09" are octal syntax errors, while "00".."07" and "10".."99" pass. */
  lemma ValidateDecimalPrice(dollars: int, hi: char, lo: char)
    requires IsDecimalDigit(hi) && IsDecimalDigit(lo)
    ensures ValidateMoney(FormatInt(dollars) + "." + [hi, lo]) ==
      if !(-Int64Cutoff <= dollars < Int64Cutoff) then Some(MoneyDollarParse)
      else if dollars < 0 || dollars > MaxDollarAmount then Some(MoneyAmount)
      else if hi == '0' && lo >= '8' then Some(MoneyCentParse)
      else None
  {
    FormatHasNoDot(dollars);
    ParseFormatInt(dollars);
    ParseTwoDigits(hi, lo);
    ValidateMoneyParts(FormatInt(dollars), [hi, lo]);
  }

  /** A single cent digit is always accepted as cents. */
  lemma ValidateShortCents(dollars: int, c: char)
    requires IsDecimalDigit(c)
    ensures ValidateMoney(FormatInt(dollars) + "." + [c]) ==
      if !(-Int64Cutoff <= dollars < Int64Cutoff) then Some(MoneyDollarParse)
      else if dollars < 0 || dollars > MaxDollarAmount then Some(MoneyAmount)
      else None
  {
    FormatHasNoDot(dollars);
    ParseFormatInt(dollars);
    ParseOneDigit(c);
    ValidateMoneyParts(FormatInt(dollars), [c]);
  }

  lemma FormatHasNoDot(v: int)
    ensures '.' !in FormatInt(v)
  {
    var d := DecimalString(if v < 0 then -v else v);
    assert forall i :: 0 <= i < |d| ==> d[i] != '.';
    if v < 0 {
      assert FormatInt(v) == "-" + d;
    }
  }

  /** Cents "08" and "09" are rejected: base 0 reads them as octal. */
  lemma OctalCentsRejected()
    ensures ValidateMoney("1.08") == Some(MoneyCentParse)
    ensures ValidateMoney("1.09") == Some(MoneyCentParse)
  {
    assert FormatInt(1) == "1";
    assert "1.08" == FormatInt(1) + "." + ['0', '8'];
    assert "1.09" == FormatInt(1) + "." + ['0', '9'];
    ValidateDecimalPrice(1, '0', '8');
    ValidateDecimalPrice(1, '0', '9');
  }

  /** Octal cents that are valid octal pass, and so does a single cent digit. */
  lemma OctalAndShortCentsAccepted()
    ensures ValidateMoney("1.07") == None
    ensures ValidateMoney("1.5") == None
  {
    assert FormatInt(1) == "1";
    assert "1.07" == FormatInt(1) + "." + ['0', '7'];
    assert "1.5" == FormatInt(1) + "." + ['5'];
    ValidateDecimalPrice(1, '0', '7');
    ValidateShortCents(1, '5');
  }

  /** An empty dollar part is a dollar parse error. */
  lemma EmptyDollarsRejected()
    ensures ValidateMoney(".50") == Some(MoneyDollarParse)
  {
    assert ".50" == "" + "." + "50";
    ValidateMoneyParts("", "50");
  }

  /** Dollar checks come first: a dollar amount out of range hides any
      defect of the cent part. */
  lemma DollarCheckedFirst()
    ensures ValidateMoney("2000.xyz") == Some(MoneyAmount)
  {
    var d := DecimalString(2000);
    assert DecimalString(2) == "2";
    assert DecimalString(20) == "20";
    assert DecimalString(200) == "200";
    assert d == "2000";
    ParseFormatInt(2000);
    assert ParseInt("2000") == Ok(2000);
    assert "2000.xyz" == "2000" + "." + "xyz";
    ValidateMoneyParts("2000", "xyz");
  }
}
