/**
 * Request parameters: the parsers that pull fields out of the decoded JSON
 * body or the query form, and the validators that check them. Every failure
 * is a `*params.Error` with status 400 and a fixed message; the first failing
 * step is the one reported.
 */
module Params {
  import opened Wrappers
  import opened Decimal
  import opened Calendar
  import opened Errors
  import opened Ledger

  const StatusBadRequest: int := 400

  /** A map lookup that gives "" for a missing key: Go's zero value for `raw[k]` and `FormValue(k)`. */
  function Value(m: map<string, string>, key: string): string {
    if key in m then m[key] else ""
  }

  function BadRequest(message: string): Error {
    ParamsError(StatusBadRequest, message)
  }

  // ----- messages ------------------------------------------------------------------

  const Layout: string := "2006-01-02"
  const CannotParseRequest: string := "cannot parse request"
  const StartDateMessage: string := "cannot parse `start_date`; `" + Layout + "` expected"
  const EndDateMessage: string := "cannot parse `end_date`; `" + Layout + "` expected"
  const LimitMessage: string := "mailformed `limit`"
  const OffsetMessage: string := "mailformed `offset_by_id`"
  const AmountMissing: string := "required `amount` not found"
  const AmountMessage: string := "mailformed `amount`"

  const TimeBoundsMessage: string := "time bounds error; start date greater than end date"
  const HistoryNameMessage: string := "wallet_name` not found"
  const NegativeLimitMessage: string := "limit` less than zero"
  const NegativeOffsetMessage: string := "offset` less than zero"
  const DirectionMessage: string := "unexpected `direction`"
  const FromMissing: string := "required `wallet_name_from` not found"
  const ToMissing: string := "required `wallet_name_to` not found"
  const SameWallets: string := "`wallet_name_from` equals `wallet_name_to`"
  const AmountNotPositive: string := "`amount` should be greater than zero"
  const NameMissing: string := "required `wallet_name` not found"
  const WalletNameMessage: string := "`wallet_name` not found"

  // ----- parsers -------------------------------------------------------------------

  datatype HistoryParams = HistoryParams(walletName: string, startDate: Date, endDate: Date,
                                         direction: string, limit: int, offsetById: int)

  datatype TransferParams = TransferParams(walletFromName: string, walletToName: string, amount: int)

  datatype DepositParams = DepositParams(walletName: string, amount: int)

  /** `parseDate`: "" is the zero time (no bound), anything else must be a "2006-01-02" date. */
  function ParseDateField(s: string): Option<Date> {
    if s == "" then Some(ZeroDate) else ParseDate(s)
  }

  /** An optional integer field: absent (or "") is 0, otherwise a base-10 int64. */
  function ParseCount(s: string): Option<int> {
    if s == "" then Some(0) else ParseInt64(s)
  }

  /**
   * `HistoryParamsParser.Parse`: `form` is the parsed query (`None` when
   * `ParseForm` fails), `vars` the route variables.
   */
  function ParseHistory(form: Option<map<string, string>>, vars: map<string, string>): Result<HistoryParams, Error> {
    if form.None? then Failure(BadRequest(CannotParseRequest))
    else
      var f := form.value;
      var start := ParseDateField(Value(f, "start_date"));
      var end := ParseDateField(Value(f, "end_date"));
      var limit := ParseCount(Value(f, "limit"));
      var offset := ParseCount(Value(f, "offset_by_id"));
      if start.None? then Failure(BadRequest(StartDateMessage))
      else if end.None? then Failure(BadRequest(EndDateMessage))
      else if limit.None? then Failure(BadRequest(LimitMessage))
      else if offset.None? then Failure(BadRequest(OffsetMessage))
      else Success(HistoryParams(Value(vars, "wallet_name"), start.value, end.value,
                                 Value(f, "direction"), limit.value, offset.value))
  }

  /** The `amount` field of a decoded body, shared by the transfer and deposit parsers. */
  function ParseAmount(raw: map<string, string>): Result<int, Error> {
    var text := Value(raw, "amount");
    if text == "" then Failure(BadRequest(AmountMissing))
    else match ParseInt64(text)
      case None => Failure(BadRequest(AmountMessage))
      case Some(amount) => Success(amount)
  }

  /** `TransferParser.Parse`: `body` is the decoded JSON object of strings, `None` when absent or undecodable. */
  function ParseTransfer(body: Option<map<string, string>>): Result<TransferParams, Error> {
    if body.None? then Failure(BadRequest(CannotParseRequest))
    else match ParseAmount(body.value)
      case Failure(e) => Failure(e)
      case Success(amount) =>
        Success(TransferParams(Value(body.value, "wallet_name_from"), Value(body.value, "wallet_name_to"), amount))
  }

  /** `DepositParser.Parse`. */
  function ParseDeposit(body: Option<map<string, string>>): Result<DepositParams, Error> {
    if body.None? then Failure(BadRequest(CannotParseRequest))
    else match ParseAmount(body.value)
      case Failure(e) => Failure(e)
      case Success(amount) => Success(DepositParams(Value(body.value, "wallet_name"), amount))
  }

  /** `WalletCreateParamsParser.Parse`: the name from the body. */
  function ParseWalletCreate(body: Option<map<string, string>>): Result<string, Error> {
    if body.None? then Failure(BadRequest(CannotParseRequest)) else Success(Value(body.value, "wallet_name"))
  }

  /** `WalletGetParamsParser.Parse`: the name from the route. */
  function ParseWalletGet(form: Option<map<string, string>>, vars: map<string, string>): Result<string, Error> {
    if form.None? then Failure(BadRequest(CannotParseRequest)) else Success(Value(vars, "wallet_name"))
  }

  // ----- validators ----------------------------------------------------------------

  /** The directions the history endpoint accepts: none, or one of the three enum names. */
  predicate KnownDirection(d: string) {
    d == "deposit" || d == "transfer" || d == "withdrawal" || d == ""
  }

  /** `HistoryParamsValidator.Validate`; `None` is a nil error. */
  function ValidateHistory(p: HistoryParams): Option<Error> {
    if !IsZero(p.endDate) && After(p.startDate, p.endDate) then Some(BadRequest(TimeBoundsMessage))
    else if p.walletName == "" then Some(BadRequest(HistoryNameMessage))
    else if p.limit < 0 then Some(BadRequest(NegativeLimitMessage))
    else if p.offsetById < 0 then Some(BadRequest(NegativeOffsetMessage))
    else if !KnownDirection(p.direction) then Some(BadRequest(DirectionMessage))
    else None
  }

  /** `TransferValidator.Validate`. */
  function ValidateTransfer(p: TransferParams): Option<Error> {
    if p.walletFromName == "" then Some(BadRequest(FromMissing))
    else if p.walletToName == "" then Some(BadRequest(ToMissing))
    else if p.walletFromName == p.walletToName then Some(BadRequest(SameWallets))
    else if p.amount <= 0 then Some(BadRequest(AmountNotPositive))
    else None
  }

  /** `DepositValidator.Validate`. */
  function ValidateDeposit(p: DepositParams): Option<Error> {
    if p.walletName == "" then Some(BadRequest(NameMissing))
    else if p.amount <= 0 then Some(BadRequest(AmountNotPositive))
    else None
  }

  /** `WalletCreateParamsValidator.Validate` and `WalletGetParamsValidator.Validate`: the same single check. */
  function ValidateWalletName(name: string): Option<Error> {
    if name == "" then Some(BadRequest(WalletNameMessage)) else None
  }

  // ----- properties ----------------------------------------------------------------

  /** Form text for a date bound: the zero date is left out. */
  function DateField(d: Date): string
    requires ValidDate(d) && 0 <= d.year <= 9999
  {
    if IsZero(d) then "" else FormatDate(d)
  }

  /**
   * History parameters written back into a query form are parsed to the same
   * parameters: the parser loses nothing a well-formed request can carry.
   */
  lemma ParseHistoryRoundTrip(p: HistoryParams)
    requires ValidDate(p.startDate) && 0 <= p.startDate.year <= 9999
    requires ValidDate(p.endDate) && 0 <= p.endDate.year <= 9999
    requires IsInt64(p.limit) && IsInt64(p.offsetById)
    ensures ParseHistory(Some(map["start_date" := DateField(p.startDate), "end_date" := DateField(p.endDate),
                                  "limit" := FormatInt(p.limit), "offset_by_id" := FormatInt(p.offsetById),
                                  "direction" := p.direction]),
                         map["wallet_name" := p.walletName]) == Success(p)
  {
    DateFieldRoundTrip(p.startDate);
    DateFieldRoundTrip(p.endDate);
    CountRoundTrip(p.limit);
    CountRoundTrip(p.offsetById);
  }

  lemma DateFieldRoundTrip(d: Date)
    requires ValidDate(d) && 0 <= d.year <= 9999
    ensures ParseDateField(DateField(d)) == Some(d)
  {
    if !IsZero(d) {
      ParseFormatDate(d);
    }
  }

  lemma CountRoundTrip(x: int)
    requires IsInt64(x)
    ensures ParseCount(FormatInt(x)) == Some(x)
  {
    ParseFormatRoundTrip(x);
  }

  /**
   * The history parser reports the first malformed field in the order
   * start_date, end_date, limit, offset_by_id, and succeeds when all four
   * are well formed; absent fields are no bound and zero.
   */
  lemma ParseHistoryFirstFailure(f: map<string, string>, vars: map<string, string>)
    ensures var r := ParseHistory(Some(f), vars);
      var start := ParseDateField(Value(f, "start_date"));
      var end := ParseDateField(Value(f, "end_date"));
      var limit := ParseCount(Value(f, "limit"));
      var offset := ParseCount(Value(f, "offset_by_id"));
      (start.None? ==> r == Failure(BadRequest(StartDateMessage))) &&
      (start.Some? && end.None? ==> r == Failure(BadRequest(EndDateMessage))) &&
      (start.Some? && end.Some? && limit.None? ==> r == Failure(BadRequest(LimitMessage))) &&
      (start.Some? && end.Some? && limit.Some? && offset.None? ==> r == Failure(BadRequest(OffsetMessage))) &&
      (r.Success? <==> start.Some? && end.Some? && limit.Some? && offset.Some?)
  {
  }

  /** Absent fields: no date bounds, limit 0, offset 0. */
  lemma ParseHistoryDefaults(vars: map<string, string>)
    ensures ParseHistory(Some(map[]), vars) == Success(HistoryParams(Value(vars, "wallet_name"), ZeroDate, ZeroDate, "", 0, 0))
  {
  }

  /** A date with a time part, or with extra leading characters, is rejected. */
  lemma ParseDateRejectsDecorated()
    ensures ParseDateField("---2005-01-01").None?
    ensures ParseDateField("2005-01-01 10:01:13").None?
  {
    assert |"---2005-01-01"| != 10;
    assert |"2005-01-01 10:01:13"| != 10;
  }

  /** The amount text of any int64 is read back as that int64, whatever else the body holds. */
  lemma ParseAmountRoundTrip(raw: map<string, string>, x: int)
    requires IsInt64(x)
    ensures ParseAmount(raw["amount" := FormatInt(x)]) == Success(x)
  {
    ParseFormatRoundTrip(x);
    assert FormatInt(x) != "";
  }

  /** A transfer body built from names and an int64 amount parses back to them, the sign kept. */
  lemma ParseTransferRoundTrip(from: string, to: string, amount: int)
    requires IsInt64(amount)
    ensures ParseTransfer(Some(map["wallet_name_from" := from, "wallet_name_to" := to, "amount" := FormatInt(amount)]))
      == Success(TransferParams(from, to, amount))
  {
    ParseAmountRoundTrip(map["wallet_name_from" := from, "wallet_name_to" := to], amount);
  }

  /** A deposit body built from a name and an int64 amount parses back to them, the sign kept. */
  lemma ParseDepositRoundTrip(name: string, amount: int)
    requires IsInt64(amount)
    ensures ParseDeposit(Some(map["wallet_name" := name, "amount" := FormatInt(amount)])) == Success(DepositParams(name, amount))
  {
    ParseAmountRoundTrip(map["wallet_name" := name], amount);
  }

  /** Transfer and deposit bodies: undecodable, then missing amount, then malformed amount. */
  lemma ParseBodyFailures(body: Option<map<string, string>>)
    ensures body.None? ==>
      ParseTransfer(body) == Failure(BadRequest(CannotParseRequest)) &&
      ParseDeposit(body) == Failure(BadRequest(CannotParseRequest))
    ensures body.Some? && Value(body.value, "amount") == "" ==>
      ParseTransfer(body) == Failure(BadRequest(AmountMissing)) &&
      ParseDeposit(body) == Failure(BadRequest(AmountMissing))
    ensures body.Some? && Value(body.value, "amount") != "" && ParseInt64(Value(body.value, "amount")).None? ==>
      ParseTransfer(body) == Failure(BadRequest(AmountMessage)) &&
      ParseDeposit(body) == Failure(BadRequest(AmountMessage))
    ensures ParseTransfer(body).Failure? ==> ParseTransfer(body).error.ParamsError? && ParseTransfer(body).error.code == 400
    ensures ParseDeposit(body).Failure? ==> ParseDeposit(body).error.ParamsError? && ParseDeposit(body).error.code == 400
  {
  }

  /**
   * The history validator accepts exactly: ordered (or open-ended) dates, a
   * name, a non-negative limit and offset and a known direction; the first
   * failing check in that order is reported.
   */
  lemma ValidateHistoryMeaning(p: HistoryParams)
    ensures var datesOk := IsZero(p.endDate) || !After(p.startDate, p.endDate);
      (ValidateHistory(p).None? <==>
        datesOk && p.walletName != "" && p.limit >= 0 && p.offsetById >= 0 && KnownDirection(p.direction)) &&
      (!datesOk ==> ValidateHistory(p) == Some(BadRequest(TimeBoundsMessage))) &&
      (datesOk && p.walletName == "" ==> ValidateHistory(p) == Some(BadRequest(HistoryNameMessage))) &&
      (ValidateHistory(p).Some? ==> ValidateHistory(p).value.ParamsError? && ValidateHistory(p).value.code == 400)
  {
  }

  /** Equal start and end dates pass; a zero end date switches the order check off. */
  lemma ValidateHistoryDates(p: HistoryParams)
    requires p.walletName != "" && p.limit >= 0 && p.offsetById >= 0 && p.direction == ""
    requires p.startDate == p.endDate || IsZero(p.endDate)
    ensures ValidateHistory(p) == None
  {
  }

  /** A direction the validator accepts is empty or the name of a ledger direction. */
  lemma ValidatedDirection(p: HistoryParams)
    requires ValidateHistory(p).None?
    ensures p.direction == "" || exists d :: DirectionName(d) == p.direction
  {
    if p.direction == "deposit" {
      assert DirectionName(Deposit) == p.direction;
    } else if p.direction == "transfer" {
      assert DirectionName(Transfer) == p.direction;
    } else if p.direction == "withdrawal" {
      assert DirectionName(Withdrawal) == p.direction;
    }
  }

  /**
   * The transfer validator accepts exactly two distinct non-empty names and a
   * positive amount; the checks run in the order source, destination,
   * equality, amount.
   */
  lemma ValidateTransferMeaning(p: TransferParams)
    ensures ValidateTransfer(p).None? <==>
      p.walletFromName != "" && p.walletToName != "" && p.walletFromName != p.walletToName && p.amount > 0
    ensures p.walletFromName == "" ==> ValidateTransfer(p) == Some(BadRequest(FromMissing))
    ensures p.walletFromName != "" && p.walletToName == "" ==> ValidateTransfer(p) == Some(BadRequest(ToMissing))
    ensures p.walletFromName != "" && p.walletToName != "" && p.walletFromName == p.walletToName ==>
      ValidateTransfer(p) == Some(BadRequest(SameWallets))
    ensures ValidateTransfer(p).Some? ==> ValidateTransfer(p).value.code == 400
  {
  }

  /** The deposit validator checks the name before the amount and accepts a name with a positive amount. */
  lemma ValidateDepositMeaning(p: DepositParams)
    ensures ValidateDeposit(p).None? <==> p.walletName != "" && p.amount > 0
    ensures p.walletName == "" ==> ValidateDeposit(p) == Some(BadRequest(NameMissing))
    ensures p.walletName != "" && p.amount <= 0 ==> ValidateDeposit(p) == Some(BadRequest(AmountNotPositive))
  {
  }

  /** Only emptiness is checked: every non-empty name passes, whatever its characters. */
  lemma ValidateWalletNameMeaning(name: string)
    ensures ValidateWalletName(name).None? <==> name != ""
    ensures name == "" ==> ValidateWalletName(name) == Some(ParamsError(400, WalletNameMessage))
  {
  }
}
