# wallets-service, modelled in Dafny

`wallets-service` is an HTTP service that keeps named wallets with non-negative
`int64` balances in PostgreSQL. It offers five endpoints:

- create a wallet;
- read a wallet's balance;
- deposit into a wallet;
- transfer between two wallets;
- a filtered, paginated history of movements, written as CSV.

Every endpoint sits behind two middlewares:

- a status-recording writer wrapper;
- an idempotency layer that keys POST requests on the `Idempotency-Key` header.

This project models that core and proves what it promises.

## The model, module by module

- **Ledger** (`ledger.dfy`): the committed database as a value.
  - It holds a balance map, the `transfer_history` rows and the next value of the id sequence.
  - Each repository operation is written as the outcome of its SQL statements, all-or-nothing:
    - `CHECK (amount >= 0)` failures give SQLSTATE 23514;
    - duplicate names give 23505;
    - `int8` overflow gives 22003.
  - The invariant `Inv` holds the schema's guarantees: non-negative balances and ids that strictly increase along the table.
  - The history query's meaning is `Fetched`.
- **Store** (`store.dfy`): the `WalletStore` class.
  - It keeps the same state in fields that `Create`, `Deposit` and `Transfer` update in place.
  - Each method is proved to produce exactly the ledger outcome.
  - `FetchHistoryForWallet` scans the table row by row, the way the database serves the query `makeQuery` builds.
- **Query** (`query.dfy`): `makeQuery` as a method that appends clause by clause.
  - It is proved equal to a clause-list specification.
  - The placeholders of its text are proved to be `$1..$n`, with `n` the number of arguments.
  - The rows the query selects are proved to be exactly the rows the history filter describes.
- **Repository** (`repository.dfy`, `repository_config.dfy`):
  - the backend registry, the `New*Repository` constructors and the capability interfaces;
  - the `RepositoryConfig` builder as a class whose setters chain.
- **Keys** (`keys.dfy`): the idempotency key store.
  - The in-memory store is a class over a map.
  - A remote store is modelled only as one whose every call fails.
- **Writers** (`writers.dfy`):
  - the response as the client sees it: the first status wins, and a body write implies 200;
  - `StatusWriter`, which remembers the last status and forwards it.
- **Params** (`params.dfy`): the request parsers over decoded bodies and query forms, and the validators.
- **Errors** (`errors.dfy`):
  - the error values: `params.Error`, the four sentinels, wrapped errors and PostgreSQL errors;
  - their messages;
  - `errors.Is` and `errors.As`.
- **Decimal, Calendar, Json, Csv**: the library behaviour the service relies on.
  - Decimal: `strconv.FormatInt` and `ParseInt`.
  - Calendar: the `2006-01-02` layout and `Time.String`.
  - Json: `json.Marshal`'s string escaping.
  - Csv: `encoding/csv`'s field quoting.
  - Each comes with a reader that recovers what was written.
- **Handlers** (`handlers.dfy`):
  - `HandlerError`;
  - each endpoint's `ServeHTTP` as a pure flow (`TransferFlow`, …);
  - an imperative method that drives the store and the writer and is proved to follow the flow.
- **Pipeline** (`pipeline.dfy`):
  - handlers as a datatype of middlewares around an endpoint;
  - `WrapWithMiddlewares`;
  - the meaning `Run` of a wrapped handler;
  - `ServeHTTP` over the objects in place, proved equal to `Run`;
  - lemmas for the test scenarios. The main one is a burst of ten transfers of 15 from a wallet holding 108 through the production chain: seven 200s and three 402s, with the total conserved.
- **ServiceConfig** (`config.dfy`):
  - `loadConfigFromEnv` over an environment map;
  - `validateConfig` against a reference list of requirements;
  - `newRepositoryConfigFrom`.

Where the code and its design description differ, the model follows the code:

- **All endpoints are wrapped.** `main` puts every endpoint, the read-only ones included, behind the idempotency layer. That layer passes a GET straight through, so reads still never touch the key store.
- **"Succeeded" means status below 400.** A key is marked finished when the status the handler left is below 400. The layer does not look at whether an error happened.
- **A POST without a key gets a plain-text 400.** The body is "`Idempotency-Key` not found", not a JSON error.
- **The history query has no `ORDER BY`.** Records come back in table order. In the model table order is also ascending id order (`FetchedAscending`).
- **Amounts are checked by the validators, not by the store.** The store does not check that a deposit or transfer amount is positive; only the validators do. So a non-positive amount that reached the store would be applied as written.

## Model

| member | source | states |
|---|---|---|
| Decimal.DigitsValueOfNatDigits | internal/reports/csv.go:19-20 | The decimal digits written for a natural number have that number as their value. |
| Decimal.ParseNatDigits | internal/params/parsers/transfer.go:43-49 | The digits of any value up to the int64 maximum parse back to that value. |
| Decimal.ParseNegatedDigits | internal/params/parsers/transfer.go:43-49 | '-' followed by the digits of n parses to -n, down to the int64 minimum. |
| Decimal.ParseInt64 | internal/params/parsers/transfer.go:43-49 | A successful parse is within the int64 range and its text starts with a sign or a digit. |
| Decimal.ParseFormatRoundTrip | internal/params/parsers/transfer.go:43-49 | Formatting any int64 in base 10 and parsing the text back gives the same number. |
| Decimal.FormatIntInjective | internal/params/errors.go:12-14 | Distinct integers have distinct decimal texts. |
| Decimal.FormatIntHasNoBackquote | internal/params/errors.go:12-14 | Decimal text never holds a backquote, so the code part of the params error text is unambiguous. |
| Calendar.ParseDate | internal/params/parsers/history.go:22-31 | An accepted date string has exactly ten characters and gives a valid calendar date with a four-digit year. |
| Calendar.ParseFormatDate | internal/params/parsers/history.go:22-31 | Every date the YYYY-MM-DD layout can express is read back from its own text. |
| Calendar.FormatParseDate | internal/params/parsers/history.go:22-31 | Any accepted date text is the canonical text of the date it gives, so the layout admits exactly one text per date. |
| Calendar.Value2Injective | internal/params/parsers/history.go:22-24 | Two two-digit fields with the same value are the same characters. |
| Calendar.FormatTimestamp | internal/reports/csv.go:29 | A time prints as 29 characters: the date's layout text first, " +0000 UTC" last. |
| Errors.ParamsErrorText | internal/params/errors.go:12-14 | The params error text is the code's digits, the message and exactly 21 characters of fixed framing. |
| Errors.ParamsErrorTextInjective | internal/params/errors.go:12-14 | Two params errors print the same text only when their codes and their messages both agree. |
| Errors.Root | internal/handlers/handlers.go:31-49 | The innermost error of a wrap chain is not itself a wrapper. |
| Errors.AsParams | internal/handlers/handlers.go:31-34 | errors.As for a params error finds only a params error. |
| Errors.IsMeansRoot | internal/handlers/handlers.go:36-49 | errors.Is against a sentinel holds exactly when the chain's innermost error is that sentinel. |
| Errors.AsParamsMeansRoot | internal/handlers/handlers.go:31-34 | errors.As finds a params error exactly when the innermost error is one, and it finds that error. |
| Errors.MessageEndsWithRoot | internal/handlers/handlers.go:38-54 | A wrapped error's message ends with its innermost error's message. |
| Json.EscapeChar | internal/handlers/handlers.go:58-64 | A character is copied as itself exactly when it is safe; any other character becomes a backslash escape of two or more characters. |
| Json.Quote | internal/handlers/handlers.go:58-64 | A marshalled string is enclosed in double quotes and is no shorter than the string plus two. |
| Json.HexRoundTrip | internal/handlers/handlers.go:58-64 | Every hexadecimal digit written is read back as its value. |
| Json.EscapeSafe | internal/handlers/handlers.go:58-64 | A string of safe characters is marshalled verbatim. |
| Json.UnescapeEscapeChar | internal/handlers/handlers.go:58-64 | Reading back one escaped character yields that character, whatever follows. |
| Json.UnescapeEscape | internal/handlers/handlers.go:58-64 | JSON string escaping loses nothing: a JSON reader recovers the original message from the escaped text. |
| Json.ErrorBodyOfSafeMessage | internal/handlers/handlers.go:58-67 | The error body of a message of safe characters is `{"ok":0,"message":"` + message + `"}`. |
| Keys.LookupAfterStore | internal/middleware/idempotency_repository.go:32-43 | After a key is stored, reading it gives the stored status, and every other key keeps its status. |
| Keys.KeyStore.InMemory | internal/middleware/idempotency_repository.go:26-30 | A new in-memory store has no entries and does not fail. |
| Keys.KeyStore.Failing | internal/middleware/idempotency_repository.go:56-78 | A store that cannot be reached fails every call with its error. |
| Keys.KeyStore.Status | internal/middleware/idempotency_repository.go:32-38 | The in-memory store returns the stored status with no error; a key never set is Unknown. An unreachable store returns its error. |
| Keys.KeyStore.SetStatus | internal/middleware/idempotency_repository.go:40-43 | The in-memory store records the status for that key alone and never errs. An unreachable store errs and changes nothing. |
| Writers.EmitFresh | internal/handlers/transfer_handler.go:43-47 | On a fresh writer the client sees the reply's status, or 200 when the handler wrote none, and exactly the reply's body. |
| Writers.FirstHeaderWins | internal/middleware/status_writer_overloader.go:14 | The overloader forwards every status to the writer beneath it. Under net/http's first-header rule, only the first status reaches the client. |
| Writers.StatusWriter.constructor | internal/middleware/status_writer_overloader.go:17-22 | A freshly wrapped writer remembers status 200 and wraps the given writer. |
| Writers.StatusWriter.WriteHeader | internal/middleware/status_writer_overloader.go:12-15 | WriteHeader(s) remembers s and forwards s to the wrapped writer. |
| Writers.Send | internal/handlers/handlers.go:66-67 | Writing a reply gives the client that status and body. A StatusWriter is left holding the reply's status, or its old status when the reply has none. |
| Repository.ValidTypes | internal/repository/repository.go:53-71 | A repository type is valid exactly for "psql" and "mysql". Exactly those types have a factory, each its own backend. |
| Repository.Sentinels | internal/repository/repository.go:8-13 | The four sentinel errors print their own messages, and those messages are pairwise distinct. |
| Repository.EveryCapabilityGets | internal/repository/repository.go:24-51 | Every repository interface includes Get, so every handler can check existence before it mutates. |
| Repository.NewRepository | internal/repository/repository.go:73-111 | A repository a constructor returns has the capability asked for. |
| Repository.NewRepositoryOutcome | internal/repository/repository.go:73-111 | An unknown type fails with ErrUnknownRepositoryType. A valid type yields the factory's outcome: its error, or the backend registered for that type. |
| RepositoryConfiguration.RepositoryConfig.constructor | internal/repository/repository_config.go:3-10 | A new configuration has empty strings and port 0. |
| RepositoryConfiguration.RepositoryConfig.SetRepositoryType | internal/repository/repository_config.go:12-15 | Sets the type alone, keeps every other getter's value and returns the same receiver. |
| RepositoryConfiguration.RepositoryConfig.SetHost | internal/repository/repository_config.go:17-20 | Sets the host alone and returns the same receiver. |
| RepositoryConfiguration.RepositoryConfig.SetPort | internal/repository/repository_config.go:22-25 | Sets the port alone and returns the same receiver. |
| RepositoryConfiguration.RepositoryConfig.SetDbName | internal/repository/repository_config.go:27-30 | Sets the database name alone and returns the same receiver. |
| RepositoryConfiguration.RepositoryConfig.SetUser | internal/repository/repository_config.go:32-35 | Sets the user alone and returns the same receiver. |
| RepositoryConfiguration.RepositoryConfig.SetPassword | internal/repository/repository_config.go:37-40 | Sets the password alone and returns the same receiver. |
| RepositoryConfiguration.Build | internal/repository/repository_config.go:42-64 | After chaining all six setters, each getter returns the value its setter was given. |
| Ledger.DirectionNameInjective | internal/repository/postgresql_repository.go:174-180 | The three direction names are distinct. |
| Ledger.EmptyInv | internal/handlers/handlers_test.go:77-99 | A freshly created schema satisfies the invariant. |
| Ledger.AppendKeepsInv | internal/repository/postgresql_repository.go:184-187 | Appending a history row with the next sequence id keeps ids ascending. |
| Ledger.TransferBalancesEffect | internal/repository/postgresql_repository.go:132-149 | When the source covers the amount, the two UPDATEs move it and keep balances non-negative. Otherwise the debit's CHECK violation becomes ErrInsufficientBalance. |
| Ledger.CreateEffect | internal/repository/postgresql_repository.go:33-50 | Create fails with ErrWalletAlreadyExists exactly when the name exists. Otherwise it adds the name with balance 0, writes no history and leaves every other wallet as it was. |
| Ledger.GetBalanceAgree | internal/repository/postgresql_repository.go:52-65 | Get and Balance agree on which wallets exist, and both report ErrWalletNotFound for the rest. |
| Ledger.DepositEffect | internal/repository/postgresql_repository.go:67-95 | A deposit into an existing wallet that does not overflow has these effects: it raises the balance by exactly the amount and returns the new balance; it appends the one record (wallet, deposit, +amount, source=unknown); it leaves every other wallet alone. |
| Ledger.DepositMissingWallet | internal/repository/postgresql_repository.go:77-80 | A deposit into a missing wallet fails with a wrapped no-rows error, which is not ErrWalletNotFound. |
| Ledger.DepositPreservesInv | internal/repository/postgresql_repository.go:67-95 | A committed deposit keeps the invariant, whatever the amount. |
| Ledger.TransferEffect | internal/repository/postgresql_repository.go:111-172 | A transfer between two distinct existing wallets succeeds exactly when the source covers the amount. On failure: ErrInsufficientBalance. On success: the amount moves and the pair's sum is kept; the debit record and then the credit record are appended; the invariant holds. |
| Ledger.TransferPreservesInv | internal/repository/postgresql_repository.go:132-171 | A committed transfer keeps the invariant, so no balance ever goes negative. |
| Ledger.SumOfUpdate | internal/repository/postgresql_repository.go:132-149 | Changing one balance changes a total over distinct names by exactly the difference, when the name is counted. |
| Ledger.TransferAttempt | internal/repository/postgresql_repository.go:132-144 | One attempt keeps the set of wallets and succeeds at most once. |
| Ledger.TransferEach | internal/handlers/transfer_handler_test.go:276-330 | Repeated attempts keep the set of wallets and succeed at most once per destination. |
| Ledger.AttemptEffect | internal/repository/postgresql_repository.go:132-144 | An attempt with headroom at the destination moves the amount exactly when the source covers it, and changes nothing otherwise. |
| Ledger.TimesIsProduct | internal/handlers/transfer_handler_test.go:276-330 | Repeated addition of an amount is the product. |
| Ledger.TransferEachSucceedsFloor | internal/handlers/transfer_handler_test.go:276-330 | Repeated transfers never overdraw the source: the successes times the amount are at most its balance. |
| Ledger.TransferEachDebitsSource | internal/handlers/transfer_handler_test.go:276-330 | After repeated transfers the source holds its balance less the amount per success. |
| Ledger.TransferEachStopsShort | internal/handlers/transfer_handler_test.go:276-330 | Either every transfer succeeds, or the source is left with less than the amount. With TransferEachSucceedsFloor this makes the count of successes min(n, balance / amount). |
| Ledger.TransferEachUntouched | internal/repository/postgresql_repository.go:132-149 | A wallet that is neither the source nor a destination keeps its balance. |
| Ledger.TransferEachConserves | internal/handlers/transfer_handler_test.go:276-330 | Repeated transfers keep the total over the source and all destinations. |
| Ledger.TenTransfersOfFifteen | internal/handlers/transfer_handler_test.go:276-330 | Ten transfers of 15 from 108 to ten other wallets: 7 succeed, the source keeps 3, and the total is unchanged. |
| Ledger.Selected | internal/repository/postgresql_repository.go:242-264 | The selected records are never more than the table's rows. |
| Ledger.Take | internal/repository/postgresql_repository.go:234-237 | The result is a prefix of the records. Its length is the limit when a positive limit is below the count, and otherwise the count. A limit of zero or less keeps every record. |
| Ledger.SelectedExactly | internal/repository/postgresql_repository.go:205-264 | A record is returned exactly when some row of the wallet passes every filter: direction, day bounds and id above the offset. |
| Ledger.SelectedAscending | internal/repository/postgresql_repository.go:242-264 | Selected records have strictly ascending ids, all below the next sequence value. |
| Ledger.FetchedAscending | internal/repository/postgresql_repository.go:242-264 | The history fetch returns records in strictly ascending id order. |
| Ledger.SelectedWithOffset | internal/repository/postgresql_repository.go:228-232 | Raising the offset keeps exactly the selected records whose id is above it. |
| Ledger.AboveAscending | internal/repository/postgresql_repository.go:228-232 | In ascending order, the records above the k-th record's id are the ones after it. |
| Ledger.AboveNone | internal/repository/postgresql_repository.go:228-232 | An offset at or above every id leaves nothing. |
| Ledger.NextPage | internal/handlers/history_handlers_test.go:128-289 | After a full page, asking again from the page's last id gives the next records of the same selection, all with larger ids. |
| Store.TakeSnoc | internal/repository/postgresql_repository.go:254-263 | A row found by the scan is kept exactly while fewer than the limit have been kept. |
| Store.SelectedStep | internal/repository/postgresql_repository.go:254-263 | Scanning one more row adds its record exactly when the row matches. |
| Store.FetchStep | internal/repository/postgresql_repository.go:242-264 | A row is collected exactly when the built query selects it and the limit is not reached. |
| Store.WalletStore.constructor | internal/handlers/handlers_test.go:77-99 | A new schema holds no wallets and no history, and the sequence starts at 1. |
| Store.WalletStore.Create | internal/repository/postgresql_repository.go:33-50 | Create commits the ledger's create outcome or returns its error unchanged, and keeps the invariant. |
| Store.WalletStore.Get | internal/repository/postgresql_repository.go:52-65 | Get succeeds exactly for an existing wallet and changes nothing. |
| Store.WalletStore.Balance | internal/repository/postgresql_repository.go:97-109 | Balance returns the stored balance, or -1 with ErrWalletNotFound, and changes nothing. |
| Store.WalletStore.Deposit | internal/repository/postgresql_repository.go:67-95 | Deposit commits the deposit outcome and returns the new balance. On failure it returns -1 with the error and leaves the database as it was. The invariant is kept. |
| Store.WalletStore.Transfer | internal/repository/postgresql_repository.go:111-172 | Transfer commits the transfer outcome, or returns its error and leaves the database unchanged, all or nothing. The invariant is kept. |
| Store.WalletStore.FetchHistoryForWallet | internal/repository/postgresql_repository.go:242-264 | The scan returns exactly the filtered, limited history of the wallet, in ascending id order. |
| Query.KeepMembers | internal/repository/postgresql_repository.go:212-237 | A clause is kept exactly when it is listed and the filter switches it on. |
| Query.KeepRanked | internal/repository/postgresql_repository.go:212-237 | Keeping clauses preserves their order. |
| Query.RankIsPosition | internal/repository/postgresql_repository.go:212-237 | The fixed clause order is direction, start, end, offset, limit. |
| Query.ClausesShape | internal/repository/postgresql_repository.go:212-237 | Each optional clause appears exactly when its condition holds: a direction, a non-zero date, a positive offset or limit. They appear in the fixed order. |
| Query.PiecesSnoc | internal/repository/postgresql_repository.go:212-237 | One more clause adds its text, numbered after the ones before. |
| Query.ArgsOfSnoc | internal/repository/postgresql_repository.go:212-237 | One more clause adds exactly its argument. |
| Query.KeepStep | internal/repository/postgresql_repository.go:212-237 | Considering one more condition adds its clause exactly when it is on. |
| Query.AppendIf | internal/repository/postgresql_repository.go:212-216 | One `if` of makeQuery keeps text, arguments and next placeholder consistent with the clauses considered so far. |
| Query.MakeQuery | internal/repository/postgresql_repository.go:205-240 | The built text is the clause-list text, and the arguments are the wallet name and then one argument per switched-on clause. |
| Query.BuiltFromPrefix | internal/repository/postgresql_repository.go:207-210 | The prefix with the wallet as $1 and the next index 2 is a consistent start. |
| Query.BuiltAll | internal/repository/postgresql_repository.go:205-240 | After every condition, the built text and arguments are the specified ones. |
| Query.DigitRun | internal/repository/postgresql_repository.go:205-240 | A digit run ends at a non-digit or at the end of the text, and holds only digits. |
| Query.Range | internal/repository/postgresql_repository.go:205-240 | The range a..b has b - a elements. |
| Query.PlaceholderAt | internal/repository/postgresql_repository.go:212-237 | Text without `$` around `$k` reads as the one placeholder k. |
| Query.ClausePlaceholder | internal/repository/postgresql_repository.go:212-237 | A clause's text carries exactly its own placeholder. |
| Query.RenderPlaceholders | internal/repository/postgresql_repository.go:212-237 | Clauses numbered from k carry the placeholders k, k + 1, … in order. |
| Query.QueryPlaceholders | internal/repository/postgresql_repository.go:205-240 | The query's placeholders are exactly $1..$n in order, n being the number of arguments. The wallet name travels only as an argument. |
| Query.MatchesByClause | internal/repository/postgresql_repository.go:205-240 | The history filter is the wallet test and every switched-on clause. |
| Query.QueryMeansFilter | internal/repository/postgresql_repository.go:205-264 | The built query with its arguments selects exactly the rows the history filter describes. |
| Params.ParseHistoryRoundTrip | internal/params/parsers/history.go:33-92 | History parameters written into a query form parse back to the same parameters. |
| Params.DateFieldRoundTrip | internal/params/parsers/history.go:26-31 | A date written as a form field parses back to it; the zero date is the absent field. |
| Params.CountRoundTrip | internal/params/parsers/history.go:59-79 | A written int64 limit or offset parses back to itself; absent means 0. |
| Params.ParseHistoryFirstFailure | internal/params/parsers/history.go:33-92 | The first malformed field is reported, in the order start_date, end_date, limit, offset_by_id, each as its own 400. The parse succeeds exactly when all four are well formed. |
| Params.ParseHistoryDefaults | internal/params/parsers/history.go:26-92 | With every field absent there are no date bounds, and the limit and offset are 0. |
| Params.ParseDateRejectsDecorated | internal/params/parsers/history.go:22-31 | Dates with extra leading characters or a time part are refused. |
| Params.ParseAmountRoundTrip | internal/params/parsers/transfer.go:35-49 | The amount text of any int64 is read back as that int64. |
| Params.ParseTransferRoundTrip | internal/params/parsers/transfer.go:18-59 | A transfer body built from names and an int64 amount parses back to them, the sign kept. |
| Params.ParseDepositRoundTrip | internal/params/parsers/deposit.go:17-51 | A deposit body built from a name and an int64 amount parses back to them, the sign kept. |
| Params.ParseBodyFailures | internal/params/parsers/transfer.go:21-49 | Failures in order, each a 400 params error: an undecodable body is "cannot parse request"; a missing or empty amount is "required `amount` not found"; a non-int64 amount is "mailformed `amount`". The deposit parser behaves the same. |
| Params.ValidateHistoryMeaning | internal/params/validators/history.go:11-50 | The validator accepts exactly: ordered or open-ended dates, a name, a non-negative limit and offset, and a known direction. Checks run date first, then name; every error is a 400. |
| Params.ValidateHistoryDates | internal/params/validators/history.go:12-17 | Equal start and end dates pass, and a zero end date turns the order check off. |
| Params.ValidatedDirection | internal/params/validators/history.go:40-47 | An accepted direction is empty or the name of a ledger direction. |
| Params.ValidateTransferMeaning | internal/params/validators/transfers.go:11-42 | The validator accepts exactly two distinct non-empty names and a positive amount. Checks run source, then destination, then equality, then amount; every error is a 400. |
| Params.ValidateDepositMeaning | internal/params/validators/deposit.go:11-28 | The validator accepts exactly a non-empty name with a positive amount. The name is checked first. |
| Params.ValidateWalletNameMeaning | internal/params/validators/wallet_get.go:11-21 | Any non-empty name passes. The empty name gets a 400 with "`wallet_name` not found". |
| Csv.TransferFields | internal/reports/csv.go:17-31 | A record becomes five fields. |
| Csv.RowsOf | internal/reports/csv.go:44-49 | There is exactly one row per record. |
| Csv.TextSnoc | internal/reports/csv.go:44-49 | Writing one more row appends its line. |
| Csv.WriteStep | internal/reports/csv.go:44-49 | Writing record i after the earlier rows gives the text of the rows up to i. |
| Csv.WriteInto | internal/reports/csv.go:33-52 | The output is the report: the header row when asked for, then one row per record, in order. |
| Csv.ReadQuotedDoubled | internal/reports/csv.go:44-50 | A quoted field with doubled quotes reads back as the original field. |
| Csv.ReadBarePlain | internal/reports/csv.go:44-50 | A field without separators reads back as itself. |
| Csv.ReadFieldOf | internal/reports/csv.go:44-50 | Any field as written, quoted or bare, reads back as the same field. |
| Csv.ReadFieldsOf | internal/reports/csv.go:44-50 | A written line reads back as its fields. |
| Csv.ReadText | internal/reports/csv.go:44-50 | Rows written one after the other read back as the same rows. |
| Csv.ReportReadsBack | internal/reports/csv.go:17-52 | Read back, the report is the header row (when asked for) and then one five-field row per record, in order. |
| Csv.HeaderUnquoted | internal/reports/csv.go:35-38 | The header row is written as the bare names id,amount,direction,meta,time. |
| Csv.LowercaseUnquoted | internal/reports/csv.go:21 | Direction names are written without quotes. |
| Csv.EmptyReport | internal/reports/csv.go:33-52 | With no records the report is the header line alone, or nothing. |
| Csv.QuotedFieldExample | internal/reports/csv_test.go:11-50 | A field holding a quote is enclosed in quotes with the quote doubled. |
| Handlers.ErrorStatusByRoot | internal/handlers/handlers.go:31-56 | The status depends only on the innermost error: a params error's code, then 404, 402, 409 for the sentinels, else 500. The message is a params error's own, else the whole error text. |
| Handlers.HandlerError | internal/handlers/handlers.go:18-70 | HandlerError aborts exactly for a non-nil error. It then writes the mapped status and the `{"ok":0,"message":…}` body. A nil error writes nothing. |
| Handlers.FetchedValid | internal/repository/postgresql_repository.go:242-264 | Every fetched record carries a valid time, so it can be written. |
| Handlers.SentinelReplies | internal/handlers/handlers.go:36-49 | The three ledger sentinels are answered 404, 402 and 409, with their own messages. |
| Handlers.ParamsErrorReply | internal/handlers/handlers.go:31-34 | A params error is answered with its own code and message, however deeply it is wrapped. |
| Handlers.WrongMethod | internal/handlers/transfer_handler.go:18-21 | Every endpoint answers another method with 405 and changes nothing. |
| Handlers.RequestErrorIsBadRequest | internal/params/validators/transfers.go:11-42 | Every parse or validation error is a params error with code 400. |
| Handlers.ParametersFirst | internal/handlers/transfer_handler.go:23-31 | A request with a parameter error is answered 400 with that error, whatever the database holds, and changes nothing. |
| Handlers.ErrorsChangeNothing | internal/handlers/deposit_handler.go:16-42 | Every reply that carries a status leaves the database as it was. Only a successful POST changes it. |
| Handlers.RepositoryErrorStatus | internal/handlers/handlers.go:36-56 | A repository error maps to one of the handlers' statuses. |
| Handlers.TransferStatuses | internal/handlers/transfer_handler.go:33-46 | The transfer handler writes only handler statuses. |
| Handlers.DepositStatuses | internal/handlers/deposit_handler.go:33-41 | The deposit handler writes only handler statuses. |
| Handlers.StatusesWritten | internal/handlers/handlers.go:18-70 | Every status a handler writes is 400, 402, 404, 405, 409 or 500. |
| Handlers.FlowKeepsInv | internal/repository/postgresql_repository.go:111-172 | No endpoint breaks the ledger invariant. |
| Handlers.TransferScenarios | internal/handlers/transfer_handler.go:33-47 | A well-formed transfer: 404 when either wallet is missing; 402 when the source is short; otherwise the amount moves with an implied 200. The failures change nothing. |
| Handlers.TransferFlowIsAttempt | internal/handlers/transfer_handler.go:43-47 | Between existing wallets the handler's effect is one transfer attempt, and it answers 200 exactly when the attempt succeeds. |
| Handlers.DepositScenarios | internal/handlers/deposit_handler.go:33-42 | A well-formed deposit: 404 for a missing wallet; 500 naming the failed update on overflow; otherwise the balance rises by the amount with an implied 200. |
| Handlers.CreateScenarios | internal/handlers/wallets_create_handler.go:33-43 | Creating an existing wallet is a 409 that changes nothing. A new name gets balance 0 and an implied 200. |
| Handlers.GetScenarios | internal/handlers/wallets_get_handler.go:46-59 | The balance endpoint answers `{"name":…,"balance":…}` for an existing wallet, else 404. It never changes anything. |
| Handlers.HistoryReadsBack | internal/handlers/history_handler.go:40-53 | A successful history request writes no status. Its body reads back as the header (when asked for) and one row per fetched record, in order. |
| Handlers.ServeTransfer | internal/handlers/transfer_handler.go:16-47 | The handler leaves the store, the response and the recorded status exactly as the transfer flow prescribes. |
| Handlers.ServeDeposit | internal/handlers/deposit_handler.go:16-42 | The handler leaves the store, the response and the recorded status exactly as the deposit flow prescribes. |
| Handlers.ServeCreate | internal/handlers/wallets_create_handler.go:16-44 | The handler leaves the store, the response and the recorded status exactly as the create flow prescribes. |
| Handlers.ServeGet | internal/handlers/wallets_get_handler.go:17-61 | The handler answers as the get flow prescribes and changes no data. |
| Handlers.ServeHistory | internal/handlers/history_handler.go:18-54 | The handler answers as the history flow prescribes and changes no data. |
| Handlers.Serve | cmd/wallet/main.go:47-53 | Each route's handler follows its endpoint's flow. |
| Pipeline.LayersOfCompose | internal/handlers/handlers.go:11-16 | Wrapping adds the chain's middlewares in front, in the chain's order, and keeps the endpoint. |
| Pipeline.ComposeAppend | internal/handlers/handlers.go:11-16 | Wrapping with a + b is wrapping with b, then with a. |
| Pipeline.WrapWithMiddlewares | internal/handlers/handlers.go:11-16 | The descending loop makes the first middleware outermost. An empty chain returns the handler itself. |
| Pipeline.Served | cmd/wallet/main.go:24-53 | Every endpoint as served can serve the server's writer without panicking. |
| Pipeline.ServedIsProduction | cmd/wallet/main.go:24-53 | Every endpoint is wrapped, outermost first, by the status overloader and then the idempotency layer. |
| Pipeline.Run | internal/middleware/idempotency.go:17-65 | A layer keeps whether the writer is a StatusWriter. |
| Pipeline.ServeHTTP | internal/middleware/idempotency.go:17-65 | Serving a wrapped handler in place leaves the store, the key store and the writer as Run prescribes, and keeps the invariant. |
| Pipeline.RunKeepsInv | internal/middleware/idempotency.go:17-65 | No request through the chain breaks the ledger invariant. |
| Pipeline.KeysOnlyFinish | internal/middleware/idempotency.go:45-62 | A request changes at most its own key, and only to Finished, so a finished key stays finished. |
| Pipeline.GetChangesNothing | internal/middleware/idempotency.go:20-23 | A GET changes neither the ledger nor the key store. |
| Pipeline.Rejections | internal/middleware/idempotency.go:25-48 | Each is answered without running the handler, so the ledger and keys stay as they were: another verb gets 405; a POST with no key gets 400 with its message; a failing key store gets 500; a finished key gets 201. |
| Pipeline.FirstAttempt | internal/middleware/idempotency.go:49-62 | A POST with an unfinished key runs the handler once. The key becomes Finished exactly when the status left is below 400; other keys are as the handler left them. |
| Pipeline.ProductionRun | internal/middleware/idempotency.go:45-62 | Through the production chain, a finished key gets 201 and nothing changes. An unfinished key runs the endpoint once and finishes exactly when the endpoint wrote no status of 400 or more. |
| Pipeline.KeyIgnored | internal/handlers/transfer_handler.go:16-47 | No endpoint looks at the Idempotency-Key header. |
| Pipeline.TransferBehindChain | internal/middleware/idempotency.go:49-62 | Behind the chain, a transfer with an unfinished key has the endpoint's own outcome, and its key is finished by the status. |
| Pipeline.TransferMissingRetryable | internal/handlers/transfer_handler_test.go:164-253 | A transfer naming a missing wallet gets 404 and leaves both the ledger and the key unchanged, so it can be retried. |
| Pipeline.TransferSucceeds | internal/handlers/transfer_handler_test.go:164-274 | A covered transfer with an unfinished key moves the amount, is answered 200 and finishes its key. |
| Pipeline.Finishing | internal/middleware/idempotency.go:57-62 | A reply with no status behind the chain is a 200 that finishes the key. |
| Pipeline.TransferShort | internal/handlers/transfer_handler_test.go:312-325 | A short source gets 402, and neither the ledger nor the key changes. |
| Pipeline.Count | internal/handlers/transfer_handler_test.go:276-330 | A count of codes is at most the number of codes. |
| Pipeline.CountSplit | internal/handlers/transfer_handler_test.go:276-330 | When every code is 200 or 402, the two counts add up to all of them. |
| Pipeline.Burst | internal/handlers/transfer_handler_test.go:276-330 | A burst keeps the ledger invariant and gives one status per request. |
| Pipeline.BurstStep | internal/handlers/transfer_handler_test.go:276-330 | The first request of a burst is one transfer attempt: 200 when it moves the money, else 402. The rest of the burst is still ready. |
| Pipeline.BurstIsTransferEach | internal/handlers/transfer_handler_test.go:276-330 | With a fresh key per request, the burst moves balances as the transfers one after another would. The 200s are as many as the successes. |
| Pipeline.CountStep | internal/handlers/transfer_handler_test.go:276-330 | One more client adds to the 200s exactly when its attempt succeeded. |
| Pipeline.BurstCodes | internal/handlers/transfer_handler_test.go:276-330 | Every client of a burst sees 200 or 402. |
| Pipeline.TenTransfersThroughTheChain | internal/handlers/transfer_handler_test.go:276-330 | Ten transfers of 15 from 108 through the production chain: seven 200s and three 402s, the source keeps 3, and the total is conserved. |
| ServiceConfig.FirstFailing | cmd/wallet/config.go:32-77 | The first failing requirement is a failing one from the list. There is none exactly when every requirement holds. |
| ServiceConfig.ValidateMeansFirstFailing | cmd/wallet/config.go:32-77 | validateConfig accepts exactly the configurations meeting every requirement. Otherwise it reports the first failing requirement, wrapped with its section's name. |
| ServiceConfig.FirstFailingAt | cmd/wallet/config.go:32-48 | The first requirement that fails is the one reported. |
| ServiceConfig.ValidConfigHasFactory | cmd/wallet/config.go:50-70 | A configuration that passes validation names a registered type, so NewRepository reaches its factory. It succeeds exactly when the factory connects. |
| ServiceConfig.ValidationExamples | cmd/wallet/config_test.go:9-61 | The test configurations: the full one passes, an empty bind address fails, and a timeout of -2 fails. |
| ServiceConfig.ShutdownTimeout | cmd/wallet/config.go:82-93 | An accepted timeout is an int64. |
| ServiceConfig.ShutdownTimeoutReads | cmd/wallet/config.go:82-93 | An unset timeout is 15, and a written int64 is read back as itself. |
| ServiceConfig.DbPort | cmd/wallet/config.go:97-103 | An accepted port is an int64, and an unset port is refused. |
| ServiceConfig.LoadConfigRoundTrip | cmd/wallet/config.go:79-113 | Each variable is read into its own field: a configuration written as an environment loads back whole. |
| ServiceConfig.LoadConfigFailures | cmd/wallet/config.go:79-113 | A missing or malformed DB_PORT, or a malformed timeout, stops loading. An unset timeout with a valid port loads with timeout 15. |
| ServiceConfig.NewRepositoryConfigFrom | cmd/wallet/config.go:115-124 | All six repository fields are copied one to one. |

## Left out

- **Storage plumbing is not modelled.**
  - This covers the connection pool, `PostgreSQLConnectionURL`, `newPSQLWalletsRepository`'s connection, the 10-second context timeouts and READ COMMITTED isolation.
  - Transaction begin and commit are assumed to succeed. A failure of either would be a generic error that commits nothing.
  - Each statement is modelled by its effect on the committed state.
- **Concurrency is not modelled.**
  - Requests run one after another.
  - The concurrent burst of the transfer tests is the sequential `Pipeline.TenTransfersThroughTheChain`.
  - The window between the idempotency layer's `Status` read and its `SetStatus` write is not represented.
- **The Redis key store is not modelled as a network client.** Only its failure mode is: the `Keys.KeyStore.Failing` store.
- **Process exits are not modelled.**
  - `log.Fatalf` after a key-store error is modelled as a 500 followed by nothing else.
  - The panics on an unknown status and on a failed `SetStatus` are modelled the same way: no further effect.
  - A configuration that fails to load is `None`.
- **Metrics are left out.** The metrics middleware and `internal/metrics` use Prometheus and floating-point timing. `Pipeline.Served` leaves them out of the chain.
- **Wiring is left out.** This covers `main`'s routing, pprof, `ListenAndServe`, graceful shutdown, `cmd/wallet/handlers.go` and the wallet package. A wallet is its name.
- **`internal/reports/json.go` is not part of this model.** The history endpoint is modelled with the CSV writer.
- **The MySQL repository is not part of this model.** Only its registration as a valid type is.
- **Request decoding is abstracted.**
  - A JSON body is modelled as its decoded map of strings, or `None` when it is absent or undecodable.
  - A query form is modelled as a map of strings, or `None` when `ParseForm` fails.
- **Meta objects have a single key.** `json.Marshal`'s ordering of keys is therefore not modelled.
- **Escaping follows Go before 1.22.** `\b` and `\f` are escaped as `\u0008` and `\u000c`.
- **Record ids are unbounded.** The id column is `int4`, but its overflow is not modelled.
- **Time is a calendar date plus a time of day in UTC with no fractional seconds.** `now()` is a parameter of the mutating operations.
- **An invalid direction yields an empty list.** Such a direction only reaches the query through a caller other than the handlers. pgx reports the enum cast error only through `rows.Err`, which the source does not check, so the model gives the empty list the filter also gives.
- Store.WalletStore.Transfer: requires both wallets to exist. The source leaves this to its callers (postgresql_repository.go:123-125), and every handler looks both wallets up first.
- Ledger.TransferEach: the sequential burst lemmas assume each destination has headroom for one credit and that the source is within int64.
